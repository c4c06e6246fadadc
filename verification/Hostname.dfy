/**
 The hostname rule of section 2.3.1 of RFC 2812, and the scanner that decides it.
 */
module Hostname {
  import opened Octets

  predicate IsAlnum(c: Octet) {
    IsLetter(c) || IsDigit(c)
  }

  /** shortname = ( letter / digit ) *( letter / digit / "-" ) */
  predicate IsLabel(t: Text) {
    |t| > 0 && IsAlnum(t[0]) && All(LabelChar, t)
  }

  /** The pieces of `t` between its dots; there is always at least one. */
  function SplitDots(t: Text): (labels: seq<Text>)
    ensures |labels| > 0
  {
    if t == [] then [[]]
    else
      var rest := SplitDots(t[1..]);
      if t[0] == DOT then [[]] + rest else [[t[0]] + rest[0]] + rest[1..]
  }

  predicate AreLabels(labels: seq<Text>) {
    forall i :: 0 <= i < |labels| ==> IsLabel(labels[i])
  }

  /** hostname = shortname *( "." shortname ) */
  predicate IsHostname(t: Text) {
    AreLabels(SplitDots(t))
  }

  /** The scanner, one octet at a time; `atStart` says that a label must begin here. */
  predicate Scan(t: Text, atStart: bool) {
    if t == [] then !atStart
    else if IsAlnum(t[0]) || (!atStart && t[0] == DASH) then Scan(t[1..], false)
    else t[0] == DOT && !atStart && Scan(t[1..], true)
  }

  lemma AreLabelsCons(first: Text, rest: seq<Text>)
    ensures AreLabels([first] + rest) <==> IsLabel(first) && AreLabels(rest)
  {
    var labels := [first] + rest;
    assert labels[0] == first && labels[1..] == rest;
    if AreLabels(labels) {
      forall i | 0 <= i < |rest| ensures IsLabel(rest[i]) {
        assert rest[i] == labels[i + 1];
      }
    }
  }

  /** The scanner decides the rule, whether a label must begin or is already under way. */
  lemma {:induction false} ScanDecides(t: Text)
    ensures Scan(t, true) <==> IsHostname(t)
    ensures Scan(t, false) <==> All(LabelChar, SplitDots(t)[0]) && AreLabels(SplitDots(t)[1..])
  {
    if t == [] {
      assert !IsLabel(SplitDots(t)[0]);
    } else {
      ScanDecides(t[1..]);
      var rest := SplitDots(t[1..]);
      if t[0] == DOT {
        AreLabelsCons([], rest);
      } else {
        AreLabelsCons([t[0]] + rest[0], rest[1..]);
        AreLabelsCons(rest[0], rest[1..]);
        AllConcat(LabelChar, [t[0]], rest[0]);
        assert [rest[0]] + rest[1..] == rest;
      }
    }
  }

  method IsValidHostname(t: Text) returns (valid: bool)
    ensures valid <==> IsHostname(t)
  {
    ScanDecides(t);
    var shortnameStart := true;
    if |t| == 0 {
      return false;
    }
    var cur := 0;
    while cur != |t|
      invariant 0 <= cur <= |t|
      invariant Scan(t, true) == Scan(t[cur..], shortnameStart)
      decreases |t| - cur
    {
      assert t[cur..][1..] == t[cur + 1..];
      var c := t[cur];
      cur := cur + 1;
      if c == BANG || c == AT {
        return false;
      }
      if IsLetter(c) || IsDigit(c) || (!shortnameStart && c == DASH) {
        shortnameStart := false;
      } else if c == DOT && !shortnameStart {
        shortnameStart := true;
      } else {
        return false;
      }
    }
    return !shortnameStart;
  }
}
