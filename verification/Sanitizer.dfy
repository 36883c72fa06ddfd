/** sanitize_discord_content: no pings survive, not even ones that replacement could have put together. */
module Sanitizer {

  const EVERYONE := "@everyone"
  const HERE := "@here"
  const SPLIT_EVERYONE := "@\U{200B}everyone"
  const SPLIT_HERE := "@\U{200B}here"
  const REDACTED := "[mention redacted]"

  predicate Digit(c: char) { '0' <= c <= '9' }

  predicate StartsWith(s: string, p: string) {
    p <= s
  }

  /** str.replace: left to right, without overlap. */
  function Replace(s: string, p: string, r: string): string
    requires p != ""
  {
    if s == "" then ""
    else if StartsWith(s, p) then r + Replace(s[|p|..], p, r)
    else [s[0]] + Replace(s[1..], p, r)
  }

  /** The leading digits of s. */
  function Digits(s: string): (n: nat)
    ensures n <= |s|
    ensures forall i :: 0 <= i < n ==> Digit(s[i])
    ensures n < |s| ==> !Digit(s[n])
  {
    if s == "" || !Digit(s[0]) then 0 else 1 + Digits(s[1..])
  }

  /** The length of a match of <@&?[0-9]+> at the start of s, or 0. */
  function MentionLength(s: string): (n: nat)
    ensures n <= |s|
    ensures n > 0 ==> n >= 4 && s[0] == '<' && s[1] == '@' && s[n - 1] == '>'
  {
    if |s| < 2 || s[0] != '<' || s[1] != '@' then 0
    else
      var start := if |s| > 2 && s[2] == '&' then 3 else 2;
      var n := Digits(s[start..]);
      if n > 0 && start + n < |s| && s[start + n] == '>' then start + n + 1 else 0
  }

  /** re.sub of the mention pattern. */
  function Redact(s: string): string {
    if s == "" then ""
    else if MentionLength(s) > 0 then REDACTED + Redact(s[MentionLength(s)..])
    else [s[0]] + Redact(s[1..])
  }

  function Sanitize(text: string): string {
    Redact(Replace(Replace(text, EVERYONE, SPLIT_EVERYONE), HERE, SPLIT_HERE))
  }

  // ---------------------------------------------------------------- what must not occur

  predicate Occurs(s: string, p: string) {
    exists i :: 0 <= i <= |s| && StartsWith(s[i..], p)
  }

  predicate HasMention(s: string) {
    exists i :: 0 <= i <= |s| && MentionLength(s[i..]) > 0
  }

  /** No ping of any of the three kinds. */
  predicate Harmless(s: string) {
    !Occurs(s, EVERYONE) && !Occurs(s, HERE) && !HasMention(s)
  }

  /** A pattern with one '@', in front. */
  predicate Ping(p: string) {
    |p| >= 2 && p[0] == '@' && forall i :: 1 <= i < |p| ==> p[i] != '@'
  }

  /** A replacement that keeps the '@' but separates it from the name. */
  predicate Splits(r: string, p: string) {
    Ping(p) && r == ['@', '\U{200B}'] + p[1..] && '\U{200B}' !in p
  }

  lemma PingsAreSplit()
    ensures Splits(SPLIT_EVERYONE, EVERYONE) && Splits(SPLIT_HERE, HERE)
  {
  }

  // ---------------------------------------------------------------- occurrences, one character at a time

  lemma OccursStep(s: string, p: string)
    requires s != ""
    ensures Occurs(s, p) <==> StartsWith(s, p) || Occurs(s[1..], p)
  {
    assert s[0..] == s;
    if Occurs(s[1..], p) {
      var i :| 0 <= i <= |s[1..]| && StartsWith(s[1..][i..], p);
      assert s[1..][i..] == s[i + 1..];
    }
    if Occurs(s, p) {
      var i :| 0 <= i <= |s| && StartsWith(s[i..], p);
      if i > 0 { assert s[i..] == s[1..][i - 1..]; }
    }
  }

  lemma MentionStep(s: string)
    requires s != ""
    ensures HasMention(s) <==> MentionLength(s) > 0 || HasMention(s[1..])
  {
    assert s[0..] == s;
    if HasMention(s[1..]) {
      var i :| 0 <= i <= |s[1..]| && MentionLength(s[1..][i..]) > 0;
      assert s[1..][i..] == s[i + 1..];
    }
    if HasMention(s) {
      var i :| 0 <= i <= |s| && MentionLength(s[i..]) > 0;
      if i > 0 { assert s[i..] == s[1..][i - 1..]; }
    }
  }

  /** A prefix without p's first character adds no occurrence of p. */
  lemma {:induction false} OccursAfter(a: string, b: string, p: string)
    requires p != "" && p[0] !in a
    ensures Occurs(a + b, p) <==> Occurs(b, p)
  {
    if a == "" {
      assert a + b == b;
    } else {
      OccursStep(a + b, p);
      assert (a + b)[1..] == a[1..] + b;
      OccursAfter(a[1..], b, p);
    }
  }

  lemma {:induction false} MentionAfter(a: string, b: string)
    requires '<' !in a
    ensures HasMention(a + b) <==> HasMention(b)
  {
    if a == "" {
      assert a + b == b;
    } else {
      MentionStep(a + b);
      assert (a + b)[1..] == a[1..] + b;
      MentionAfter(a[1..], b);
    }
  }

  /** A copied first character in front of a text that starts only as the original does. */
  lemma CopiedHead(s: string, out: string, q: string)
    requires s != "" && q != "" && out != "" && out[0] == s[0]
    requires StartsWith(out[1..], q[1..]) ==> StartsWith(s[1..], q[1..])
    ensures StartsWith(out, q) ==> StartsWith(s, q)
  {
    if StartsWith(out, q) {
      assert out == [out[0]] + out[1..] && q == [q[0]] + q[1..];
      assert s == [s[0]] + s[1..];
    }
  }

  // ---------------------------------------------------------------- the two replacements

  /** What a replaced text starts with, up to the next '@', the original started with. */
  lemma {:induction false} ReplaceStart(s: string, p: string, r: string, q: string)
    requires Splits(r, p) && '@' !in q && StartsWith(Replace(s, p, r), q)
    ensures StartsWith(s, q)
  {
    if q != "" {
      assert Replace(s, p, r)[0] == q[0];
      assert !StartsWith(s, p);
      assert Replace(s, p, r)[1..] == Replace(s[1..], p, r);
      assert StartsWith(Replace(s[1..], p, r), q[1..]);
      ReplaceStart(s[1..], p, r, q[1..]);
      assert s == [s[0]] + s[1..] && q == [q[0]] + q[1..];
    }
  }

  /** Replacing p neither leaves p nor makes another ping q. */
  lemma {:induction false} ReplaceRemoves(s: string, p: string, r: string, q: string)
    requires Splits(r, p) && Ping(q) && '\U{200B}' !in q && (q == p || !Occurs(s, q))
    ensures !Occurs(Replace(s, p, r), q)
  {
    var out := Replace(s, p, r);
    if s == "" {
      assert out == "";
    } else if StartsWith(s, p) {
      var rest := Replace(s[|p|..], p, r);
      if q != p { OccursSuffix(s, |p|, q); }
      ReplaceRemoves(s[|p|..], p, r, q);
      assert out == r + rest && out[1..] == r[1..] + rest;
      OccursStep(out, q);
      assert out[1] == '\U{200B}';
      OccursAfter(r[1..], rest, q);
    } else {
      OccursStep(s, q);
      ReplaceRemoves(s[1..], p, r, q);
      assert out[1..] == Replace(s[1..], p, r);
      OccursStep(out, q);
      if StartsWith(out[1..], q[1..]) { ReplaceStart(s[1..], p, r, q[1..]); }
      CopiedHead(s, out, q);
    }
  }

  lemma {:induction false} OccursSuffix(s: string, n: nat, q: string)
    requires n <= |s| && !Occurs(s, q)
    ensures !Occurs(s[n..], q)
  {
    if n > 0 {
      OccursStep(s, q);
      assert s[1..][n - 1..] == s[n..];
      OccursSuffix(s[1..], n - 1, q);
    }
  }

  lemma {:induction false} ReplaceNothing(s: string, p: string, r: string)
    requires p != "" && !Occurs(s, p)
    ensures Replace(s, p, r) == s
  {
    if s != "" {
      OccursStep(s, p);
      ReplaceNothing(s[1..], p, r);
    }
  }

  // ---------------------------------------------------------------- redaction

  /** Redaction lets a start without '[' only come from an equal start. */
  lemma {:induction false} RedactStart(s: string, q: string)
    requires '[' !in q && StartsWith(Redact(s), q)
    ensures StartsWith(s, q)
  {
    if q != "" {
      assert Redact(s)[0] == q[0];
      assert MentionLength(s) == 0;
      assert Redact(s)[1..] == Redact(s[1..]);
      assert StartsWith(Redact(s[1..]), q[1..]);
      RedactStart(s[1..], q[1..]);
      assert s == [s[0]] + s[1..] && q == [q[0]] + q[1..];
    }
  }

  /** Redaction makes no new ping of a kind that was absent. */
  lemma {:induction false} RedactKeepsOut(s: string, q: string)
    requires Ping(q) && '[' !in q && !Occurs(s, q)
    ensures !Occurs(Redact(s), q)
  {
    if s != "" {
      var out, n := Redact(s), MentionLength(s);
      if n > 0 {
        OccursSuffix(s, n, q);
        RedactKeepsOut(s[n..], q);
        OccursAfter(REDACTED, Redact(s[n..]), q);
      } else {
        OccursStep(s, q);
        RedactKeepsOut(s[1..], q);
        assert out[1..] == Redact(s[1..]);
        OccursStep(out, q);
        if StartsWith(out[1..], q[1..]) { RedactStart(s[1..], q[1..]); }
        CopiedHead(s, out, q);
      }
    }
  }

  /** A mention is a fixed text of characters that redaction never writes. */
  lemma {:induction false} DigitsOfStart(s: string, t: string)
    requires t <= s && Digits(t) < |t|
    ensures Digits(s) == Digits(t)
  {
    if t[0..1] != "" && Digit(t[0]) {
      DigitsOfStart(s[1..], t[1..]);
    }
  }

  lemma MentionOfStart(s: string, t: string)
    requires MentionLength(t) == |t| && t != "" && t <= s
    ensures MentionLength(s) == |t|
  {
    var start := if t[2] == '&' then 3 else 2;
    assert t[start..] <= s[start..];
    DigitsOfStart(s[start..], t[start..]);
  }

  lemma MentionIsItsText(s: string)
    requires MentionLength(s) > 0
    ensures var t := s[..MentionLength(s)]; MentionLength(t) == |t| && '[' !in t
  {
    var n := MentionLength(s);
    var t := s[..n];
    var start := if s[2] == '&' then 3 else 2;
    DigitsPrefix(s[start..], n - start);
    assert t[start..] == s[start..][..n - start];
    assert forall i :: start <= i < n - 1 ==> t[i] == s[start..][i - start];
  }

  lemma {:induction false} DigitsPrefix(s: string, n: nat)
    requires Digits(s) < n <= |s|
    ensures Digits(s[..n]) == Digits(s)
  {
    if Digit(s[0]) {
      assert s[..n][1..] == s[1..][..n - 1];
      DigitsPrefix(s[1..], n - 1);
    }
  }

  /** No mention is left, and none is formed across the edges of a redaction. */
  lemma {:induction false} RedactRemoves(s: string)
    ensures !HasMention(Redact(s))
  {
    var out, n := Redact(s), MentionLength(s);
    if s == "" {
      assert out == "";
    } else if n > 0 {
      RedactRemoves(s[n..]);
      MentionAfter(REDACTED, Redact(s[n..]));
    } else {
      RedactRemoves(s[1..]);
      assert out[1..] == Redact(s[1..]);
      MentionStep(out);
      if MentionLength(out) > 0 {
        var t := out[..MentionLength(out)];
        MentionIsItsText(out);
        RedactStart(s, t);
        MentionOfStart(s, t);
      }
    }
  }

  lemma {:induction false} RedactNothing(s: string)
    requires !HasMention(s)
    ensures Redact(s) == s
  {
    if s != "" {
      MentionStep(s);
      RedactNothing(s[1..]);
    }
  }

  // ---------------------------------------------------------------- the pattern

  /** The text matches <@&?[0-9]+> in full. */
  predicate IsMention(m: string) {
    && |m| >= 4 && m[0] == '<' && m[1] == '@' && m[|m| - 1] == '>'
    && (DigitsFrom(m, 2) || (m[2] == '&' && DigitsFrom(m, 3)))
  }

  /** From `start` to the last character but one there are digits, and there is at least one. */
  predicate DigitsFrom(m: string, start: nat) {
    start + 1 < |m| && forall i :: start <= i < |m| - 1 ==> '0' <= m[i] <= '9'
  }

  lemma DigitsEnd(m: string, start: nat)
    requires DigitsFrom(m, start) && m[|m| - 1] == '>'
    ensures Digits(m[start..]) == |m| - 1 - start
  {
    var d, n := m[start..], Digits(m[start..]);
    assert d[|m| - 1 - start] == '>';
    assert forall i :: 0 <= i < |m| - 1 - start ==> d[i] == m[start + i];
  }

  lemma MatchesInFull(m: string)
    requires IsMention(m)
    ensures MentionLength(m) == |m|
  {
    DigitsEnd(m, if m[2] == '&' then 3 else 2);
  }

  lemma FullMatch(m: string)
    requires m != "" && MentionLength(m) == |m|
    ensures IsMention(m)
  {
    var start := if m[2] == '&' then 3 else 2;
    assert Digits(m[start..]) == |m| - 1 - start;
    assert forall i :: start <= i < |m| - 1 ==> m[i] == m[start..][i - start];
    assert DigitsFrom(m, start);
  }

  /** A text starts with a mention exactly if a match has a length, and then no other length matches. */
  lemma StartsWithMention(s: string, n: nat)
    requires n <= |s|
    ensures IsMention(s[..n]) <==> n > 0 && MentionLength(s) == n
  {
    if IsMention(s[..n]) {
      MatchesInFull(s[..n]);
      MentionOfStart(s, s[..n]);
    }
    if n > 0 && MentionLength(s) == n {
      MentionIsItsText(s);
      FullMatch(s[..n]);
    }
  }

  /** Some stretch of the text is a mention. */
  predicate Contains(s: string) {
    exists a, b :: 0 <= a <= b <= |s| && IsMention(s[a..b])
  }

  lemma ContainsIff(s: string)
    ensures Contains(s) <==> HasMention(s)
  {
    hide IsMention, MentionLength;
    if Contains(s) {
      var a, b :| 0 <= a <= b <= |s| && IsMention(s[a..b]);
      assert s[a..][..b - a] == s[a..b];
      StartsWithMention(s[a..], b - a);
    }
    if HasMention(s) {
      var a :| 0 <= a <= |s| && MentionLength(s[a..]) > 0;
      var n := MentionLength(s[a..]);
      StartsWithMention(s[a..], n);
      assert s[a..][..n] == s[a..a + n];
    }
  }

  // ---------------------------------------------------------------- what is kept

  /** str.join. */
  function Join(pieces: seq<string>, separator: string): string {
    if pieces == [] then ""
    else if |pieces| == 1 then pieces[0]
    else pieces[0] + separator + Join(pieces[1..], separator)
  }

  /** t0 + m1 + t1 + ... + mk + tk. */
  function Interleaved(pieces: seq<string>, mentions: seq<string>): string
    requires |pieces| == |mentions| + 1
  {
    if mentions == [] then pieces[0]
    else pieces[0] + mentions[0] + Interleaved(pieces[1..], mentions[1..])
  }

  lemma JoinHead(c: string, pieces: seq<string>, separator: string)
    requires pieces != []
    ensures Join([c + pieces[0]] + pieces[1..], separator) == c + Join(pieces, separator)
  {
    var longer := [c + pieces[0]] + pieces[1..];
    assert longer[1..] == pieces[1..];
  }

  lemma JoinNext(pieces: seq<string>, separator: string)
    requires pieces != []
    ensures Join([""] + pieces, separator) == separator + Join(pieces, separator)
  {
    assert ([""] + pieces)[1..] == pieces;
  }

  /** A replacement changes nothing but the occurrences: what lies between them stays, in place. */
  lemma {:induction false} ReplaceKeeps(s: string, p: string, r: string) returns (pieces: seq<string>)
    requires p != ""
    ensures pieces != [] && forall i :: 0 <= i < |pieces| ==> !Occurs(pieces[i], p)
    ensures s == Join(pieces, p) && Replace(s, p, r) == Join(pieces, r)
    ensures pieces[0] <= s
  {
    if s == "" {
      pieces := [""];
    } else if StartsWith(s, p) {
      var rest := ReplaceKeeps(s[|p|..], p, r);
      pieces := [""] + rest;
      JoinNext(rest, p);
      JoinNext(rest, r);
      assert s == p + s[|p|..];
    } else {
      var rest := ReplaceKeeps(s[1..], p, r);
      var first := [s[0]] + rest[0];
      pieces := [first] + rest[1..];
      JoinHead([s[0]], rest, p);
      JoinHead([s[0]], rest, r);
      assert s == [s[0]] + s[1..];
      OccursStep(first, p);
      assert first[1..] == rest[0];
    }
  }

  lemma ContainsStep(s: string)
    requires s != "" && Contains(s)
    ensures Contains(s[1..]) || exists n :: 0 <= n <= |s| && IsMention(s[..n])
  {
    hide IsMention;
    var a, b :| 0 <= a <= b <= |s| && IsMention(s[a..b]);
    if a > 0 { assert s[1..][a - 1..b - 1] == s[a..b]; } else { assert s[..b] == s[a..b]; }
  }

  /** `out` is s with its mentions, and nothing else, replaced. */
  ghost predicate Redacted(s: string, out: string, pieces: seq<string>, mentions: seq<string>) {
    && |pieces| == |mentions| + 1
    && (forall i :: 0 <= i < |mentions| ==> IsMention(mentions[i]))
    && (forall i :: 0 <= i < |pieces| ==> !Contains(pieces[i]))
    && s == Interleaved(pieces, mentions) && out == Join(pieces, "[mention redacted]")
    && pieces[0] <= s
  }

  lemma RedactedMention(s: string, n: nat, rest: seq<string>, others: seq<string>)
    requires 0 < n <= |s| && IsMention(s[..n]) && Redacted(s[n..], Redact(s[n..]), rest, others)
    ensures Redacted(s, REDACTED + Redact(s[n..]), [""] + rest, [s[..n]] + others)
  {
    hide IsMention, Contains;
    var pieces, mentions := [""] + rest, [s[..n]] + others;
    NoMentionInNothing();
    JoinNext(rest, REDACTED);
    assert pieces[1..] == rest && mentions[1..] == others;
    assert s == "" + s[..n] + s[n..];
  }

  lemma RedactedChar(s: string, rest: seq<string>, others: seq<string>)
    requires s != "" && MentionLength(s) == 0 && Redacted(s[1..], Redact(s[1..]), rest, others)
    ensures Redacted(s, [s[0]] + Redact(s[1..]), [[s[0]] + rest[0]] + rest[1..], others)
  {
    hide IsMention, Contains, MentionLength, Redact;
    var first := [s[0]] + rest[0];
    var pieces := [first] + rest[1..];
    assert s == [s[0]] + s[1..];
    JoinHead([s[0]], rest, REDACTED);
    InterleavedHead([s[0]], rest, others);
    assert first[1..] == rest[0];
    NoMentionInFirst(s, first);
  }

  lemma InterleavedHead(c: string, pieces: seq<string>, mentions: seq<string>)
    requires |pieces| == |mentions| + 1
    ensures Interleaved([c + pieces[0]] + pieces[1..], mentions) == c + Interleaved(pieces, mentions)
  {
    assert ([c + pieces[0]] + pieces[1..])[1..] == pieces[1..];
  }

  /** Redaction changes nothing but the mentions: what lies between them stays, in place. */
  lemma {:induction false} RedactKeeps(s: string) returns (pieces: seq<string>, mentions: seq<string>)
    ensures |pieces| == |mentions| + 1
    ensures forall i :: 0 <= i < |mentions| ==> IsMention(mentions[i])
    ensures forall i :: 0 <= i < |pieces| ==> !Contains(pieces[i])
    ensures s == Interleaved(pieces, mentions) && Redact(s) == Join(pieces, "[mention redacted]")
  {
    pieces, mentions := Redaction(s);
  }

  lemma {:induction false} Redaction(s: string) returns (pieces: seq<string>, mentions: seq<string>)
    ensures Redacted(s, Redact(s), pieces, mentions)
  {
    var n := MentionLength(s);
    if s == "" {
      NoMentionInNothing();
      pieces, mentions := [""], [];
    } else if n > 0 {
      var rest, others := Redaction(s[n..]);
      StartsWithMention(s, n);
      RedactedMention(s, n, rest, others);
      pieces, mentions := [""] + rest, [s[..n]] + others;
      hide Redacted;
    } else {
      var rest, others := Redaction(s[1..]);
      RedactedChar(s, rest, others);
      pieces, mentions := [[s[0]] + rest[0]] + rest[1..], others;
      hide Redacted;
    }
  }

  lemma NoMentionInNothing()
    ensures !Contains("")
  {
  }

  /** Where no mention starts a text, none starts its first piece. */
  lemma NoMentionInFirst(s: string, first: string)
    requires first != "" && first <= s && MentionLength(s) == 0 && !Contains(first[1..])
    ensures !Contains(first)
  {
    hide IsMention, MentionLength;
    if Contains(first) {
      ContainsStep(first);
      var k :| 0 <= k <= |first| && IsMention(first[..k]);
      assert first[..k] == s[..k];
      StartsWithMention(s, k);
    }
  }

  /**
   Sanitizing keeps everything but the pings, in place: the text falls apart at "@everyone", the
   result of the first replacement at "@here", that of the second at its mentions, and each time
   the pieces are put together again around the replacement.
   */
  lemma SanitizeKeeps(text: string)
    returns (a: seq<string>, b: seq<string>, pieces: seq<string>, mentions: seq<string>)
    ensures text == Join(a, "@everyone") && forall i :: 0 <= i < |a| ==> !Occurs(a[i], "@everyone")
    ensures Join(a, "@\U{200B}everyone") == Join(b, "@here") && forall i :: 0 <= i < |b| ==> !Occurs(b[i], "@here")
    ensures |pieces| == |mentions| + 1 && Join(b, "@\U{200B}here") == Interleaved(pieces, mentions)
    ensures forall i :: 0 <= i < |mentions| ==> IsMention(mentions[i])
    ensures forall i :: 0 <= i < |pieces| ==> !Contains(pieces[i])
    ensures Sanitize(text) == Join(pieces, "[mention redacted]")
  {
    a := ReplaceKeeps(text, EVERYONE, SPLIT_EVERYONE);
    b := ReplaceKeeps(Replace(text, EVERYONE, SPLIT_EVERYONE), HERE, SPLIT_HERE);
    pieces, mentions := RedactKeeps(Replace(Replace(text, EVERYONE, SPLIT_EVERYONE), HERE, SPLIT_HERE));
  }

  // ---------------------------------------------------------------- theorems

  /** Whatever the text, the result pings nobody: neither by name nor by a stretch that is a mention. */
  lemma SanitizedIsHarmless(text: string)
    ensures Harmless(Sanitize(text))
    ensures !Occurs(Sanitize(text), "@everyone") && !Occurs(Sanitize(text), "@here") && !Contains(Sanitize(text))
  {
    ContainsIff(Sanitize(text));
    PingsAreSplit();
    var one := Replace(text, EVERYONE, SPLIT_EVERYONE);
    var two := Replace(one, HERE, SPLIT_HERE);
    ReplaceRemoves(text, EVERYONE, SPLIT_EVERYONE, EVERYONE);
    ReplaceRemoves(one, HERE, SPLIT_HERE, EVERYONE);
    ReplaceRemoves(one, HERE, SPLIT_HERE, HERE);
    RedactKeepsOut(two, EVERYONE);
    RedactKeepsOut(two, HERE);
    RedactRemoves(two);
  }

  /** Exactly the harmless texts are left alone. */
  lemma UnchangedIffHarmless(text: string)
    ensures Sanitize(text) == text <==> Harmless(text)
  {
    SanitizedIsHarmless(text);
    if Harmless(text) {
      ReplaceNothing(text, EVERYONE, SPLIT_EVERYONE);
      ReplaceNothing(text, HERE, SPLIT_HERE);
      RedactNothing(text);
    }
  }

  /** Sanitizing twice is sanitizing once. */
  lemma SanitizeIsIdempotent(text: string)
    ensures Sanitize(Sanitize(text)) == Sanitize(text)
  {
    SanitizedIsHarmless(text);
    UnchangedIffHarmless(Sanitize(text));
  }
}
