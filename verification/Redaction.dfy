/**
  Redaction of database errors: every supplied token, its query-escaped form, and two
  connection-string patterns are replaced by a marker.
 */
module Redaction {
  import opened Options

  const MARK := "[REDACTED]"
  const FAILURE_PREFIX := "database authentication failed: "

  // ---------------------------------------------------------------- replacing

  /**
    A match at the start of a string: `keep` characters stay, `drop` characters give way to
    the marker, and `tail` further characters stay and end the match.
   */
  datatype Hit = Hit(keep: nat, drop: nat, tail: nat)

  datatype Pattern = Literal(token: string) | DsnPassword | UriPassword

  function Match(p: Pattern, s: string): (h: Option<Hit>)
    ensures h.Some? ==> 0 < h.value.keep + h.value.drop + h.value.tail <= |s|
  {
    match p
    case Literal(token) =>
      if token != "" && token <= s then Some(Hit(0, |token|, 0)) else None
    case DsnPassword =>
      if StartsWithPasswordKey(s) && DsnRun(s[9..]) > 0 then Some(Hit(9, DsnRun(s[9..]), 0)) else None
    case UriPassword =>
      if s == "" || s[0] != ':' then None
      else
        var run := UriRun(s[1..]);
        if run > 0 && 1 + run < |s| && s[1 + run] == '@' then Some(Hit(1, run, 1)) else None
  }

  /** Under (?i) the letter s also matches the long s, U+017F. */
  predicate FoldsTo(c: char, lower: char) {
    || c == lower
    || ('A' <= c <= 'Z' && c as int + 32 == lower as int)
    || (lower == 's' && c == '\U{017F}')
  }

  predicate StartsWithPasswordKey(s: string) {
    |s| >= 9 && forall i :: 0 <= i < 9 ==> FoldsTo(s[i], "password="[i])
  }

  predicate RegexpSpace(c: char) {
    c == '\t' || c == '\n' || c == '\U{000C}' || c == '\r' || c == ' '
  }

  /** The length of the longest prefix in [^&;\s]*. */
  function DsnRun(s: string): (n: nat)
    ensures n <= |s|
  {
    if s == "" || s[0] == '&' || s[0] == ';' || RegexpSpace(s[0]) then 0 else 1 + DsnRun(s[1..])
  }

  /** The length of the longest prefix in [^:@/\s]*. */
  function UriRun(s: string): (n: nat)
    ensures n <= |s|
  {
    if s == "" || s[0] == ':' || s[0] == '@' || s[0] == '/' || RegexpSpace(s[0]) then 0 else 1 + UriRun(s[1..])
  }

  function AfterHit(s: string, h: Hit): string
    requires h.keep + h.drop + h.tail <= |s|
  {
    s[h.keep + h.drop + h.tail..]
  }

  function TailOf(s: string, h: Hit): string
    requires h.keep + h.drop + h.tail <= |s|
  {
    s[h.keep + h.drop..h.keep + h.drop + h.tail]
  }

  /** Replaces the leftmost non-overlapping matches, as strings.ReplaceAll and ReplaceAllString do. */
  function Redact(p: Pattern, s: string): string
    decreases |s|
  {
    match Match(p, s)
    case Some(h) => s[..h.keep] + MARK + TailOf(s, h) + Redact(p, AfterHit(s, h))
    case None => if s == "" then "" else [s[0]] + Redact(p, s[1..])
  }

  // ---------------------------------------------------------------- trimming and escaping

  /** unicode.IsSpace. */
  predicate IsSpace(c: char) {
    || '\t' <= c <= '\r' || c == ' ' || c == '\U{0085}' || c == '\U{00A0}' || c == '\U{1680}'
    || '\U{2000}' <= c <= '\U{200A}' || c == '\U{2028}' || c == '\U{2029}' || c == '\U{202F}'
    || c == '\U{205F}' || c == '\U{3000}'
  }

  function TrimSpace(s: string): string {
    if s == "" then ""
    else if IsSpace(s[0]) then TrimSpace(s[1..])
    else if IsSpace(s[|s| - 1]) then TrimSpace(s[..|s| - 1])
    else s
  }

  function HexDigit(n: nat): char
    requires n < 16
  {
    "0123456789ABCDEF"[n]
  }

  function Percent(b: nat): string
    requires b < 256
  {
    ['%', HexDigit(b / 16), HexDigit(b % 16)]
  }

  /** One rune of url.QueryEscape: unreserved, a space, or its UTF-8 bytes in percent form. */
  function EscapeRune(c: char): string {
    var n := c as int;
    if 'a' <= c <= 'z' || 'A' <= c <= 'Z' || '0' <= c <= '9' || c == '-' || c == '_' || c == '.' || c == '~' then [c]
    else if c == ' ' then "+"
    else if n < 0x80 then Percent(n)
    else if n < 0x800 then Percent(0xC0 + n / 0x40) + Percent(0x80 + n % 0x40)
    else if n < 0x1_0000 then
      Percent(0xE0 + n / 0x1000) + Percent(0x80 + n / 0x40 % 0x40) + Percent(0x80 + n % 0x40)
    else
      Percent(0xF0 + n / 0x4_0000) + Percent(0x80 + n / 0x1000 % 0x40) + Percent(0x80 + n / 0x40 % 0x40)
      + Percent(0x80 + n % 0x40)
  }

  function QueryEscape(s: string): string {
    if s == "" then "" else EscapeRune(s[0]) + QueryEscape(s[1..])
  }

  // ---------------------------------------------------------------- the sanitizer

  function RedactToken(msg: string, sensitive: string): string {
    var trimmed := TrimSpace(sensitive);
    if trimmed == "" then msg
    else
      var escaped := QueryEscape(trimmed);
      var once := Redact(Literal(trimmed), msg);
      if escaped != trimmed then Redact(Literal(escaped), once) else once
  }

  function RedactTokens(msg: string, sensitive: seq<string>): string
    decreases |sensitive|
  {
    if |sensitive| == 0 then msg else RedactTokens(RedactToken(msg, sensitive[0]), sensitive[1..])
  }

  /** The part of the sanitized error after its fixed prefix. */
  function SanitizedPart(msg: string, sensitive: seq<string>): string {
    Redact(UriPassword, Redact(DsnPassword, RedactTokens(msg, sensitive)))
  }

  method SanitizeDBError(err: Option<string>, sensitiveData: seq<string>) returns (r: Option<string>)
    ensures err.None? ==> r.None?
    ensures err.Some? ==> r == Some(FAILURE_PREFIX + SanitizedPart(err.value, sensitiveData))
  {
    if err.None? {
      return None;
    }
    var msg := err.value;
    for i := 0 to |sensitiveData|
      invariant RedactTokens(err.value, sensitiveData) == RedactTokens(msg, sensitiveData[i..])
    {
      var trimmed := TrimSpace(sensitiveData[i]);
      if |trimmed| > 0 {
        msg := Redact(Literal(trimmed), msg);
        var escaped := QueryEscape(trimmed);
        if escaped != trimmed {
          msg := Redact(Literal(escaped), msg);
        }
      }
      assert sensitiveData[i..][1..] == sensitiveData[i + 1..];
    }
    msg := Redact(DsnPassword, msg);
    msg := Redact(UriPassword, msg);
    r := Some(FAILURE_PREFIX + msg);
  }

  // ---------------------------------------------------------------- no token survives

  predicate OccursAt(s: string, t: string, i: nat) {
    i + |t| <= |s| && s[i..i + |t|] == t
  }

  ghost predicate Occurs(s: string, t: string) {
    exists i: nat :: OccursAt(s, t, i)
  }

  /** Laid over the marker at that offset, the token differs from it somewhere. */
  predicate Clashes(t: string, offset: int) {
    exists k :: 0 <= k < |t| && 0 <= k + offset < |MARK| && t[k] != MARK[k + offset]
  }

  /** The token is not empty, and wherever it overlaps the marker it clashes with it. */
  predicate Clear(t: string) {
    t != "" && forall offset :: -|t| < offset < |MARK| ==> Clashes(t, offset)
  }

  /** A token that shares no character with the marker is clear. */
  lemma ForeignIsClear(t: string)
    requires t != "" && forall k :: 0 <= k < |t| ==> t[k] !in MARK
    ensures Clear(t)
  {
    forall offset | -|t| < offset < |MARK| ensures Clashes(t, offset) {
      var k := if offset < 0 then -offset else 0;
      assert t[k] != MARK[k + offset];
    }
  }

  lemma OccursLeft(a: string, b: string, t: string, i: nat)
    requires i + |t| <= |a|
    ensures OccursAt(a + b, t, i) <==> OccursAt(a, t, i)
  {
    assert (a + b)[i..i + |t|] == a[i..i + |t|];
  }

  lemma OccursRight(a: string, b: string, t: string, j: nat)
    ensures OccursAt(a + b, t, |a| + j) <==> OccursAt(b, t, j)
  {
    if j + |t| <= |b| {
      assert (a + b)[|a| + j..|a| + j + |t|] == b[j..j + |t|];
    }
  }

  lemma PartsAbsent(a: string, b: string, t: string)
    requires !Occurs(a + b, t)
    ensures !Occurs(a, t) && !Occurs(b, t)
  {
    forall i: nat ensures !OccursAt(a, t, i) && !OccursAt(b, t, i) {
      assert !OccursAt(a + b, t, i) && !OccursAt(a + b, t, |a| + i);
      OccursRight(a, b, t, i);
      if i + |t| <= |a| {
        OccursLeft(a, b, t, i);
      }
    }
  }

  lemma OccursChar(s: string, t: string, i: nat, k: nat)
    requires k < |t|
    ensures OccursAt(s, t, i) ==> i + k < |s| && s[i + k] == t[k]
  {
    if OccursAt(s, t, i) {
      assert s[i..i + |t|][k] == s[i + k];
    }
  }

  lemma NotAcross(a: string, b: string, t: string, i: nat)
    requires Clear(t) && |a| < i + |t| <= |a + MARK + b| && i < |a| + |MARK|
    ensures !OccursAt(a + MARK + b, t, i)
  {
    assert Clashes(t, i - |a|);
    var k :| 0 <= k < |t| && 0 <= k + i - |a| < |MARK| && t[k] != MARK[k + i - |a|];
    OccursChar(a + MARK + b, t, i, k);
  }

  /** A clear token cannot reach into the marker, so it lies on one side of it. */
  lemma MarkSeparates(a: string, b: string, t: string)
    requires Clear(t) && !Occurs(a, t) && !Occurs(b, t)
    ensures !Occurs(a + MARK + b, t)
  {
    forall i: nat ensures !OccursAt(a + MARK + b, t, i) {
      if i + |t| <= |a| {
        OccursLeft(a, MARK + b, t, i);
        assert a + MARK + b == a + (MARK + b);
      } else if i >= |a| + |MARK| {
        OccursRight(a + MARK, b, t, i - |a| - |MARK|);
      } else if i + |t| <= |a + MARK + b| {
        NotAcross(a, b, t, i);
      }
    }
  }

  /** One match: if the token is absent from what follows it, it is absent from the whole. */
  lemma HitStep(z: string, s: string, h: Hit, out: string, t: string)
    requires h.keep + h.drop + h.tail <= |s|
    requires Clear(t) && !Occurs(z + s, t)
    requires !Occurs(TailOf(s, h) + AfterHit(s, h), t) ==> !Occurs(TailOf(s, h) + out, t)
    ensures !Occurs(z + (s[..h.keep] + MARK + TailOf(s, h) + out), t)
  {
    hide Occurs, Clear;
    var left, right := z + s[..h.keep], TailOf(s, h);
    assert left + s[h.keep..] == z + s by {
      assert s == s[..h.keep] + s[h.keep..];
    }
    PartsAbsent(left, s[h.keep..], t);
    PartsAbsent(z, s, t);
    HitParts(s, h);
    PartsAbsent(s[..h.keep + h.drop], right + AfterHit(s, h), t);
    MarkSeparates(left, right + out, t);
    Reassociate(z, s[..h.keep], right, out);
  }

  lemma HitParts(s: string, h: Hit)
    requires h.keep + h.drop + h.tail <= |s|
    ensures s[..h.keep + h.drop] + (TailOf(s, h) + AfterHit(s, h)) == s
  {
  }

  lemma Reassociate(z: string, kept: string, right: string, out: string)
    ensures z + (kept + MARK + right + out) == (z + kept) + MARK + (right + out)
  {
  }

  /** No replacement brings a clear token into being, whatever text stands before the scanned part. */
  lemma {:induction false} RedactIntroducesNothing(p: Pattern, z: string, s: string, t: string)
    requires Clear(t) && !Occurs(z + s, t)
    ensures !Occurs(z + Redact(p, s), t)
    decreases |s|
  {
    var m := Match(p, s);
    if m.Some? {
      var h := m.value;
      if !Occurs(TailOf(s, h) + AfterHit(s, h), t) {
        RedactIntroducesNothing(p, TailOf(s, h), AfterHit(s, h), t);
      }
      HitStep(z, s, h, Redact(p, AfterHit(s, h)), t);
    } else if s != "" {
      assert z + [s[0]] + s[1..] == z + s;
      RedactIntroducesNothing(p, z + [s[0]], s[1..], t);
      assert z + ([s[0]] + Redact(p, s[1..])) == z + [s[0]] + Redact(p, s[1..]);
    }
  }

  /** No occurrence of the token starts in the first part. */
  ghost predicate NoneStartsIn(z: string, s: string, t: string) {
    forall i: nat :: i < |z| ==> !OccursAt(z + s, t, i)
  }

  lemma NoneInside(z: string, s: string, t: string)
    requires t != "" && NoneStartsIn(z, s, t)
    ensures !Occurs(z, t)
  {
    forall i: nat ensures !OccursAt(z, t, i) {
      if i + |t| <= |z| {
        OccursLeft(z, s, t, i);
      }
    }
  }

  lemma StartsLater(z: string, s: string, t: string)
    requires s != "" && NoneStartsIn(z, s, t) && !(t <= s)
    ensures NoneStartsIn(z + [s[0]], s[1..], t)
  {
    assert z + [s[0]] + s[1..] == z + s;
    OccursRight(z, s, t, 0);
  }

  lemma LiteralStep(t: string, s: string)
    requires t != ""
    ensures t <= s ==> Redact(Literal(t), s) == MARK + Redact(Literal(t), s[|t|..])
    ensures !(t <= s) && s != "" ==> Redact(Literal(t), s) == [s[0]] + Redact(Literal(t), s[1..])
    ensures s == "" ==> Redact(Literal(t), s) == ""
  {
    hide StartsWithPasswordKey, DsnRun, UriRun;
    if t <= s {
      assert Match(Literal(t), s) == Some(Hit(0, |t|, 0));
      assert AfterHit(s, Hit(0, |t|, 0)) == s[|t|..] && TailOf(s, Hit(0, |t|, 0)) == "" && s[..0] == "";
      assert "" + MARK + "" + Redact(Literal(t), s[|t|..]) == MARK + Redact(Literal(t), s[|t|..]);
    }
  }

  /** Replacing a clear token leaves no occurrence of it, unless one already starts before the scan. */
  lemma {:induction false} RedactRemoves(z: string, s: string, t: string)
    requires Clear(t) && NoneStartsIn(z, s, t)
    ensures !Occurs(z + Redact(Literal(t), s), t)
    decreases |s|
  {
    hide Redact, Match, Occurs;
    LiteralStep(t, s);
    NoneInside(z, s, t);
    if t <= s {
      var rest := Redact(Literal(t), s[|t|..]);
      RedactRemoves("", s[|t|..], t);
      assert "" + rest == rest;
      MarkSeparates(z, rest, t);
      assert z + (MARK + rest) == z + MARK + rest;
    } else if s != "" {
      StartsLater(z, s, t);
      RedactRemoves(z + [s[0]], s[1..], t);
      assert z + ([s[0]] + Redact(Literal(t), s[1..])) == z + [s[0]] + Redact(Literal(t), s[1..]);
    } else {
      assert z + "" == z;
    }
  }

  lemma RedactKeepsAbsent(p: Pattern, s: string, t: string)
    requires Clear(t) && !Occurs(s, t)
    ensures !Occurs(Redact(p, s), t)
  {
    assert "" + s == s && "" + Redact(p, s) == Redact(p, s);
    RedactIntroducesNothing(p, "", s, t);
  }

  lemma RedactTokenKeepsAbsent(msg: string, sensitive: string, t: string)
    requires Clear(t) && !Occurs(msg, t)
    ensures !Occurs(RedactToken(msg, sensitive), t)
  {
    var trimmed := TrimSpace(sensitive);
    RedactKeepsAbsent(Literal(trimmed), msg, t);
    RedactKeepsAbsent(Literal(QueryEscape(trimmed)), Redact(Literal(trimmed), msg), t);
  }

  lemma RedactTokenRemoves(msg: string, sensitive: string)
    requires Clear(TrimSpace(sensitive))
    ensures !Occurs(RedactToken(msg, sensitive), TrimSpace(sensitive))
  {
    var t := TrimSpace(sensitive);
    RedactRemoves("", msg, t);
    assert "" + Redact(Literal(t), msg) == Redact(Literal(t), msg);
    RedactKeepsAbsent(Literal(QueryEscape(t)), Redact(Literal(t), msg), t);
  }

  lemma {:induction false} RedactTokensKeepAbsent(msg: string, sensitive: seq<string>, t: string)
    requires Clear(t) && !Occurs(msg, t)
    ensures !Occurs(RedactTokens(msg, sensitive), t)
    decreases |sensitive|
  {
    if sensitive != [] {
      RedactTokenKeepsAbsent(msg, sensitive[0], t);
      RedactTokensKeepAbsent(RedactToken(msg, sensitive[0]), sensitive[1..], t);
    }
  }

  lemma {:induction false} RedactTokensRemove(msg: string, sensitive: seq<string>, i: nat)
    requires i < |sensitive| && Clear(TrimSpace(sensitive[i]))
    ensures !Occurs(RedactTokens(msg, sensitive), TrimSpace(sensitive[i]))
    decreases i
  {
    var next := RedactToken(msg, sensitive[0]);
    if i == 0 {
      RedactTokenRemoves(msg, sensitive[0]);
      RedactTokensKeepAbsent(next, sensitive[1..], TrimSpace(sensitive[0]));
    } else {
      RedactTokensRemove(next, sensitive[1..], i - 1);
    }
  }

  /**
    For every message and every list of tokens: a trimmed token that cannot overlap the
    marker does not occur in the sanitized part, whatever later tokens and patterns do.
   */
  lemma TokensAreRedacted(msg: string, sensitive: seq<string>, i: nat)
    requires i < |sensitive| && Clear(TrimSpace(sensitive[i]))
    ensures !Occurs(SanitizedPart(msg, sensitive), TrimSpace(sensitive[i]))
  {
    var t := TrimSpace(sensitive[i]);
    RedactTokensRemove(msg, sensitive, i);
    RedactKeepsAbsent(DsnPassword, RedactTokens(msg, sensitive), t);
    RedactKeepsAbsent(UriPassword, Redact(DsnPassword, RedactTokens(msg, sensitive)), t);
  }

  // ---------------------------------------------------------------- what is left alone

  /** A text in which nothing matches comes back as it was. */
  lemma {:induction false} RedactLeavesUnmatched(p: Pattern, s: string)
    requires forall i :: 0 <= i <= |s| ==> Match(p, s[i..]).None?
    ensures Redact(p, s) == s
    decreases |s|
  {
    hide Match;
    assert s[0..] == s;
    if s != "" {
      forall i | 0 <= i <= |s[1..]| ensures Match(p, s[1..][i..]).None? {
        assert s[1..][i..] == s[i + 1..];
      }
      RedactLeavesUnmatched(p, s[1..]);
    }
  }

  lemma QueryEscapeKeepsLetters(t: string)
    requires forall k :: 0 <= k < |t| ==> 'A' <= t[k] <= 'Z'
    ensures QueryEscape(t) == t
  {
    if t != "" {
      QueryEscapeKeepsLetters(t[1..]);
    }
  }

  lemma MarkUnmatched(p: Pattern)
    requires !p.Literal?
    ensures Redact(p, MARK) == MARK
  {
    forall i | 0 <= i <= |MARK| ensures Match(p, MARK[i..]).None? {
      if i < |MARK| {
        assert MARK[i..][0] == MARK[i];
        assert !FoldsTo(MARK[i], "password="[0]) && MARK[i] != ':';
      }
    }
    RedactLeavesUnmatched(p, MARK);
  }

  lemma WholeLiteral(t: string)
    requires t != ""
    ensures Redact(Literal(t), t) == MARK
  {
    LiteralStep(t, t);
    LiteralStep(t, "");
    assert t[|t|..] == "";
  }

  lemma WholeTokenBecomesMark(t: string)
    requires t != "" && forall k :: 0 <= k < |t| ==> 'A' <= t[k] <= 'Z'
    ensures RedactToken(t, t) == MARK
  {
    WholeLiteral(t);
    QueryEscapeKeepsLetters(t);
    assert TrimSpace(t) == t;
  }

  lemma InsideTheMarker(t: string, k: nat)
    requires OccursAt("REDACTED", t, k)
    ensures Occurs(MARK, t)
    ensures forall j :: 0 <= j < |t| ==> 'A' <= t[j] <= 'Z'
  {
    forall j | 0 <= j < |t| ensures 'A' <= t[j] <= 'Z' {
      assert t[j] == "REDACTED"[k + j];
    }
    OccursRight("[", "REDACTED]", t, k);
    OccursLeft("REDACTED", "]", t, k);
    assert MARK == "[" + "REDACTED]" && "REDACTED]" == "REDACTED" + "]";
    assert OccursAt(MARK, t, 1 + k);
  }

  lemma OneToken(msg: string, t: string)
    ensures RedactTokens(msg, [t]) == RedactToken(msg, t)
  {
    assert [t][1..] == [];
  }

  /**
    The condition on tokens matters: every token that is part of the marker's own word, however
    long, is still there after a message made of that token is sanitized.
   */
  lemma TokensInsideTheMarkerLeak(t: string, k: nat)
    requires t != "" && OccursAt("REDACTED", t, k)
    ensures Occurs(SanitizedPart(t, [t]), t)
  {
    InsideTheMarker(t, k);
    WholeTokenBecomesMark(t);
    OneToken(t, t);
    MarkUnmatched(DsnPassword);
    MarkUnmatched(UriPassword);
  }
}
