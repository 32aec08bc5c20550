/** Phone numbers and WhatsApp JIDs: the digit filter and JID builder of the
    gateway client, and the JID-to-phone extraction of the webhook. */
module Phone {
  import opened Common

  /** The suffix of a direct-chat JID. */
  const DirectSuffix: string := "@s.whatsapp.net"

  /** The marker of a group-chat JID. */
  const GroupMarker: string := "@g.us"

  /** `\d` without the Unicode flag: an ASCII decimal digit. */
  predicate IsDigit(c: char)
  {
    '0' <= c <= '9'
  }

  predicate AllDigits(s: string)
  {
    forall i :: 0 <= i < |s| ==> IsDigit(s[i])
  }

  /** `preg_replace('/\D/', '', s)`: drops every character that is not a digit. */
  function SanitizePhone(s: string): (r: string)
    ensures AllDigits(r)
    ensures |r| <= |s|
    ensures forall i :: 0 <= i < |s| && IsDigit(s[i]) ==> s[i] in r
    ensures AllDigits(s) ==> r == s
  {
    if |s| == 0 then ""
    else (if IsDigit(s[0]) then [s[0]] else "") + SanitizePhone(s[1..])
  }

  /** The filter commutes with concatenation, so together with its effect on
      one character it says the result is the input's digits, in order. */
  lemma {:induction false} SanitizeConcat(a: string, b: string)
    ensures SanitizePhone(a + b) == SanitizePhone(a) + SanitizePhone(b)
    decreases |a|
  {
    if |a| == 0 {
      assert a + b == b;
    } else {
      assert (a + b)[1..] == a[1..] + b;
      SanitizeConcat(a[1..], b);
    }
  }

  /** On one character the filter keeps exactly the digits. */
  lemma SanitizeOneChar(c: char)
    ensures SanitizePhone([c]) == (if IsDigit(c) then [c] else [])
  {
    assert [c][1..] == [];
  }

  /** Sanitizing twice is sanitizing once. */
  lemma SanitizeIdempotent(s: string)
    ensures SanitizePhone(SanitizePhone(s)) == SanitizePhone(s)
  {
  }

  /** `formatRemoteJid`: the digits of the phone followed by the direct suffix. */
  function FormatRemoteJid(phone: string): (r: string)
    ensures |r| == |SanitizePhone(phone)| + |DirectSuffix|
    ensures r[..|SanitizePhone(phone)|] == SanitizePhone(phone)
    ensures r[|SanitizePhone(phone)|..] == DirectSuffix
  {
    SanitizePhone(phone) + DirectSuffix
  }

  /** `pat` occurs in `s` starting at index `i`. */
  predicate OccursAt(s: string, pat: string, i: int)
  {
    0 <= i <= |s| - |pat| && s[i..i + |pat|] == pat
  }

  /** PHP `str_contains(s, pat)`. */
  predicate Contains(s: string, pat: string)
  {
    exists i :: 0 <= i <= |s| - |pat| && OccursAt(s, pat, i)
  }

  /** PHP `str_replace(pat, '', s)`: every non-overlapping occurrence of `pat`
      found scanning left to right is removed; the result is not rescanned. */
  function ReplaceAll(s: string, pat: string): (r: string)
    requires |pat| > 0
    ensures |r| <= |s|
    // a text without the pattern comes back unchanged
    ensures !Contains(s, pat) ==> r == s
    decreases |s|
  {
    if |s| < |pat| then s
    else if s[..|pat|] == pat then
      assert OccursAt(s, pat, 0);
      ReplaceAll(s[|pat|..], pat)
    else
      OccurrenceInTail(s, pat);
      [s[0]] + ReplaceAll(s[1..], pat)
  }

  /** An occurrence in the tail of a text is an occurrence in the text. */
  lemma OccurrenceInTail(s: string, pat: string)
    requires |s| > 0
    ensures Contains(s[1..], pat) ==> Contains(s, pat)
  {
    if Contains(s[1..], pat) {
      var i :| 0 <= i <= |s[1..]| - |pat| && OccursAt(s[1..], pat, i);
      assert s[i + 1..i + 1 + |pat|] == s[1..][i..i + |pat|];
      assert OccursAt(s, pat, i + 1);
    }
  }

  /** PCRE `^\d+$` without the `D` modifier: one or more digits, where `$` also
      accepts a single newline right before the end of the subject. */
  predicate MatchesDigitsPattern(p: string)
  {
    || (|p| > 0 && AllDigits(p))
    || (|p| > 1 && p[|p| - 1] == '\n' && AllDigits(p[..|p| - 1]))
  }

  /** What the pattern accepts, in terms of the digit filter: a text that is
      nothing but its (non-empty) digits, or those digits and one final newline. */
  lemma DigitsPatternShape(p: string)
    ensures MatchesDigitsPattern(p) <==>
      |SanitizePhone(p)| > 0 && (SanitizePhone(p) == p || SanitizePhone(p) + "\n" == p)
  {
    var sp := SanitizePhone(p);
    SanitizeFixedPoint(p);
    if |p| > 0 && p[|p| - 1] == '\n' {
      var q := p[..|p| - 1];
      NewlineIsDropped(p);
      SanitizeFixedPoint(q);
      assert |sp| <= |q| < |p|;
      assert !IsDigit(p[|p| - 1]);
      assert sp + "\n" == p <==> sp == q;
    } else if |p| > 0 {
      assert (sp + "\n")[|sp|] == '\n';
    }
  }

  /** The filter leaves a text unchanged exactly when it is all digits. */
  lemma SanitizeFixedPoint(s: string)
    ensures SanitizePhone(s) == s <==> AllDigits(s)
  {
  }

  /** A final newline is dropped by the filter. */
  lemma NewlineIsDropped(p: string)
    requires |p| > 0 && p[|p| - 1] == '\n'
    ensures p == p[..|p| - 1] + "\n"
    ensures SanitizePhone(p) == SanitizePhone(p[..|p| - 1])
  {
    var q := p[..|p| - 1];
    assert p == q + ['\n'];
    SanitizeConcat(q, ['\n']);
    SanitizeOneChar('\n');
  }

  /** `extractPhoneFromJid`: remove every direct suffix, then accept the rest
      only if it matches the digits pattern. */
  function ExtractPhoneFromJid(jid: string): (r: Option<string>)
    ensures r.Some? ==> |r.value| > 0 && MatchesDigitsPattern(r.value)
    ensures r.Some? ==> r.value == ReplaceAll(jid, DirectSuffix)
    ensures r.None? ==> !MatchesDigitsPattern(ReplaceAll(jid, DirectSuffix))
  {
    var p := ReplaceAll(jid, DirectSuffix);
    if MatchesDigitsPattern(p) then Some(p) else None
  }

  /** The scan removes the first occurrence of a pattern after a prefix that
      does not hold the pattern's first character, and carries on after it:
      the text before the occurrence is kept and the rest is scanned on its own. */
  lemma {:induction false} StripFirstOccurrence(a: string, pat: string, b: string)
    requires |pat| > 0
    requires forall i :: 0 <= i < |a| ==> a[i] != pat[0]
    ensures ReplaceAll(a + pat + b, pat) == a + ReplaceAll(b, pat)
    decreases |a|
  {
    if |a| == 0 {
      assert a + pat + b == pat + b;
      OccurrenceAtStart(pat, b);
    } else {
      var rest := ReplaceAll(b, pat);
      FirstCharKept(a, pat, b);
      StripFirstOccurrence(a[1..], pat, b);
      HeadAndTail(a, rest);
    }
  }

  /** A non-empty text is its first character followed by its tail. */
  lemma HeadAndTail(a: string, t: string)
    requires |a| > 0
    ensures [a[0]] + (a[1..] + t) == a + t
  {
    assert a == [a[0]] + a[1..];
  }

  /** An occurrence at the start is dropped and the scan goes on after it. */
  lemma OccurrenceAtStart(pat: string, b: string)
    requires |pat| > 0
    ensures ReplaceAll(pat + b, pat) == ReplaceAll(b, pat)
  {
    var s := pat + b;
    assert s[..|pat|] == pat;
    assert s[|pat|..] == b;
  }

  /** A first character that cannot start the pattern is kept. */
  lemma FirstCharKept(a: string, pat: string, b: string)
    requires |pat| > 0 && |a| > 0 && a[0] != pat[0]
    ensures ReplaceAll(a + pat + b, pat) == [a[0]] + ReplaceAll(a[1..] + pat + b, pat)
  {
    var s := a + pat + b;
    assert s[0] == a[0];
    assert s[..|pat|][0] != pat[0];
    assert s[1..] == a[1..] + pat + b;
    KeepFirst(s, pat);
  }

  /** For the direct suffix: everything before its first occurrence in an
      '@'-free prefix is kept, and the rest is scanned on its own. */
  lemma StripFirstSuffix(a: string, b: string)
    requires forall i :: 0 <= i < |a| ==> a[i] != '@'
    ensures ReplaceAll(a + DirectSuffix + b, DirectSuffix) == a + ReplaceAll(b, DirectSuffix)
  {
    assert DirectSuffix[0] == '@';
    StripFirstOccurrence(a, DirectSuffix, b);
  }

  /** A first character that does not begin an occurrence of the pattern is
      kept, even when it equals the pattern's first character, and the scan
      goes on from the next one. */
  lemma KeepFirst(s: string, pat: string)
    requires |pat| > 0 && |s| > 0 && !(|s| >= |pat| && s[..|pat|] == pat)
    ensures ReplaceAll(s, pat) == [s[0]] + ReplaceAll(s[1..], pat)
  {
    if |s| < |pat| {
      assert ReplaceAll(s, pat) == s;
      assert ReplaceAll(s[1..], pat) == s[1..];
      assert [s[0]] + s[1..] == s;
    } else {
      assert s[..|pat|] != pat;
    }
  }

  /** A prefix without the pattern's first character is kept as it is, and
      the scan goes on after it. */
  lemma {:induction false} KeepPrefix(a: string, t: string, pat: string)
    requires |pat| > 0
    requires forall i :: 0 <= i < |a| ==> a[i] != pat[0]
    ensures ReplaceAll(a + t, pat) == a + ReplaceAll(t, pat)
    decreases |a|
  {
    if |a| == 0 {
      assert a + t == t;
    } else {
      var s := a + t;
      assert s[0] == a[0];
      assert |s| >= |pat| ==> s[..|pat|][0] != pat[0];
      assert s[1..] == a[1..] + t;
      KeepFirst(s, pat);
      KeepPrefix(a[1..], t, pat);
      HeadAndTail(a, ReplaceAll(t, pat));
    }
  }

  /** Removing the suffix from a text without '@' followed by the suffix
      gives back the text. */
  lemma StripSuffix(d: string)
    requires forall i :: 0 <= i < |d| ==> d[i] != '@'
    ensures ReplaceAll(d + DirectSuffix, DirectSuffix) == d
  {
    StripFirstSuffix(d, "");
    assert d + DirectSuffix + "" == d + DirectSuffix;
  }

  /** An occurrence inside the JID is removed too, not only the final one:
      digits, the suffix, more digits and the suffix again yield all the
      digits joined (`"55@s.whatsapp.net11@s.whatsapp.net"` gives `"5511"`). */
  lemma InteriorSuffixIsRemoved(a: string, b: string)
    requires |a| > 0 && AllDigits(a) && AllDigits(b)
    ensures ExtractPhoneFromJid(a + DirectSuffix + b + DirectSuffix) == Some(a + b)
  {
    assert a + DirectSuffix + b + DirectSuffix == a + DirectSuffix + (b + DirectSuffix);
    StripFirstSuffix(a, b + DirectSuffix);
    StripSuffix(b);
    assert AllDigits(a + b) by {
      forall i | 0 <= i < |a + b|
        ensures IsDigit((a + b)[i])
      {
        if i < |a| { assert (a + b)[i] == a[i]; } else { assert (a + b)[i] == b[i - |a|]; }
      }
    }
  }

  /** An '@' that does not begin the suffix stays in the remainder, so the
      JID is rejected: `"@5@s.whatsapp.net"` yields null. */
  lemma StrayAtSignIsKept(d: string)
    requires |d| > 0 && AllDigits(d)
    ensures ReplaceAll("@" + d + DirectSuffix, DirectSuffix) == "@" + d
    ensures ExtractPhoneFromJid("@" + d + DirectSuffix) == None
  {
    assert "@" == [DirectSuffix[0]];
    assert IsDigit(d[0]) && d[0] != DirectSuffix[1];
    StrayHead(d, DirectSuffix);
    StripSuffix(d);
    AtSignFails("@" + d);
  }

  /** The pattern's first character, when the next one differs from the
      pattern's second, is kept and the scan goes on after it. */
  lemma StrayHead(d: string, pat: string)
    requires |pat| >= 2 && |d| > 0 && d[0] != pat[1]
    ensures ReplaceAll([pat[0]] + d + pat, pat) == [pat[0]] + ReplaceAll(d + pat, pat)
  {
    var u := d + pat;
    var s := [pat[0]] + u;
    assert s[1..] == u;
    assert s[..|pat|][1] == u[0] == d[0];
    KeepFirst(s, pat);
    assert [pat[0]] + d + pat == s;
  }

  /** A text that starts with '@' does not match the digits pattern. */
  lemma AtSignFails(r: string)
    requires |r| > 0 && r[0] == '@'
    ensures !MatchesDigitsPattern(r)
  {
    assert !IsDigit(r[0]);
    if |r| > 1 {
      assert r[..|r| - 1][0] == '@';
    }
  }

  /** The result is not scanned again: removing the suffix from the middle
      of `"@s.whatsapp@s.whatsapp.net.net"` leaves a new suffix behind, which
      stays, so `"55@s.whatsapp@s.whatsapp.net.net"` is rejected. */
  lemma NestedSuffixIsNotRescanned()
    ensures ReplaceAll("55" + "@s.whatsapp" + DirectSuffix + ".net", DirectSuffix) == "55" + DirectSuffix
    ensures ExtractPhoneFromJid("55" + "@s.whatsapp" + DirectSuffix + ".net") == None
  {
    var h := "@s.whatsapp";
    var t := h + DirectSuffix + ".net";
    assert "55" + h + DirectSuffix + ".net" == "55" + t;
    KeepPrefix("55", t, DirectSuffix);
    NestedTail(h, t);
    var r := "55" + DirectSuffix;
    assert r[2] == '@';
    assert r[..|r| - 1][2] == '@';
  }

  /** The middle step of the nested example: the leading '@' does not begin
      the suffix, and the suffix after it is removed. */
  lemma NestedTail(h: string, t: string)
    requires h == "@s.whatsapp" && t == h + DirectSuffix + ".net"
    ensures ReplaceAll(t, DirectSuffix) == DirectSuffix
  {
    NestedHeadIsKept(h, t);
    NestedMiddle(h);
    NestedPiecesJoin(h);
  }

  /** After the kept '@', the suffix is removed and `".net"` stays. */
  lemma NestedMiddle(h: string)
    requires h == "@s.whatsapp"
    ensures ReplaceAll(h[1..] + DirectSuffix + ".net", DirectSuffix) == h[1..] + ".net"
  {
    NestedPiecesJoin(h);
    StripFirstOccurrence(h[1..], DirectSuffix, ".net");
    assert ReplaceAll(".net", DirectSuffix) == ".net";
  }

  /** The '@' that opens `"@s.whatsapp@s.whatsapp.net.net"` is kept. */
  lemma NestedHeadIsKept(h: string, t: string)
    requires h == "@s.whatsapp" && t == h + DirectSuffix + ".net"
    ensures t[0] == '@' && t[1..] == h[1..] + DirectSuffix + ".net"
    ensures ReplaceAll(t, DirectSuffix) == "@" + ReplaceAll(h[1..] + DirectSuffix + ".net", DirectSuffix)
  {
    assert t[11] == '@' && DirectSuffix[11] == '.';
    assert t[..|DirectSuffix|][11] != DirectSuffix[11];
    assert t[1..] == h[1..] + DirectSuffix + ".net";
    KeepFirst(t, DirectSuffix);
  }

  /** The kept pieces spell the suffix again. */
  lemma NestedPiecesJoin(h: string)
    requires h == "@s.whatsapp"
    ensures "@" + (h[1..] + ".net") == DirectSuffix
    ensures forall i :: 0 <= i < |h[1..]| ==> h[1..][i] != DirectSuffix[0]
  {
  }

  /** Round trip: the JID the gateway client builds for a phone with at least
      one digit is mapped back by the webhook to exactly those digits. */
  lemma JidRoundTrip(phone: string)
    requires SanitizePhone(phone) != ""
    ensures ExtractPhoneFromJid(FormatRemoteJid(phone)) == Some(SanitizePhone(phone))
  {
    StripSuffix(SanitizePhone(phone));
  }

  /** A phone without digits gives a bare suffix JID, which the webhook rejects. */
  lemma DigitlessJidIsRejected(phone: string)
    requires SanitizePhone(phone) == ""
    ensures ExtractPhoneFromJid(FormatRemoteJid(phone)) == None
  {
    StripSuffix("");
  }

  /** The extraction accepts a phone with one trailing newline: `$` matches
      before a final newline. */
  lemma TrailingNewlineIsAccepted()
    ensures ExtractPhoneFromJid("5511\n" + DirectSuffix) == Some("5511\n")
  {
    var d := "5511\n";
    StripSuffix(d);
    assert d[..|d| - 1] == "5511";
  }
}
