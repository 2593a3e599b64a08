/**
  The query-escaped form of a token, as drivers echo it: what it looks like, that it can be read
  back, and that no sanitized error ever shows it. Also what trimming and the two patterns achieve,
  in plain characters.
 */
module Escaping {
  import opened Redaction
  import opened Leaks

  // ---------------------------------------------------------------- the form

  /** The characters that stand for themselves. */
  predicate Plain(c: char) {
    'a' <= c <= 'z' || 'A' <= c <= 'Z' || '0' <= c <= '9' || c in {'-', '_', '.', '~'}
  }

  predicate UpperHex(c: char) {
    '0' <= c <= '9' || 'A' <= c <= 'F'
  }

  /** Plain characters, plus signs, and percent signs with two hexadecimal digits. */
  predicate WellEscaped(e: string) {
    || e == ""
    || ((Plain(e[0]) || e[0] == '+') && WellEscaped(e[1..]))
    || (|e| >= 3 && e[0] == '%' && UpperHex(e[1]) && UpperHex(e[2]) && WellEscaped(e[3..]))
  }

  predicate Marked(c: char) {
    c == '%' || c == '+'
  }

  lemma WellEscapedConcat(a: string, b: string)
    requires WellEscaped(a) && WellEscaped(b)
    ensures WellEscaped(a + b)
  {
    if a == "" {
      assert a + b == b;
    } else if Plain(a[0]) || a[0] == '+' {
      assert (a + b)[1..] == a[1..] + b;
      WellEscapedConcat(a[1..], b);
    } else {
      assert (a + b)[3..] == a[3..] + b;
      WellEscapedConcat(a[3..], b);
    }
  }

  lemma PercentIsWell(b: nat)
    requires b < 256
    ensures WellEscaped(Percent(b)) && |Percent(b)| == 3 && Percent(b)[0] == '%'
  {
    assert Percent(b)[3..] == "";
  }

  /** Percent forms in a row. */
  function Percents(bs: seq<nat>): string
    requires forall i :: 0 <= i < |bs| ==> bs[i] < 256
  {
    if |bs| == 0 then "" else Percent(bs[0]) + Percents(bs[1..])
  }

  lemma {:induction false} PercentsAreWell(bs: seq<nat>)
    requires forall i :: 0 <= i < |bs| ==> bs[i] < 256
    ensures WellEscaped(Percents(bs)) && |Percents(bs)| == 3 * |bs|
    ensures |bs| > 0 ==> Percents(bs)[0] == '%'
  {
    hide Percent;
    if |bs| > 0 {
      PercentIsWell(bs[0]);
      PercentsAreWell(bs[1..]);
      WellEscapedConcat(Percent(bs[0]), Percents(bs[1..]));
    }
  }

  /** The bytes of a rune in UTF-8 (RFC 3629, section 3). */
  function Utf8(n: nat): (bs: seq<nat>)
    requires n < 0x11_0000
    ensures 1 <= |bs| <= 4 && forall i :: 0 <= i < |bs| ==> bs[i] < 256
  {
    if n < 0x80 then [n]
    else if n < 0x800 then [0xC0 + n / 0x40, 0x80 + n % 0x40]
    else if n < 0x1_0000 then [0xE0 + n / 0x1000, 0x80 + n / 0x40 % 0x40, 0x80 + n % 0x40]
    else [0xF0 + n / 0x4_0000, 0x80 + n / 0x1000 % 0x40, 0x80 + n / 0x40 % 0x40, 0x80 + n % 0x40]
  }

  lemma PercentsCons(b: nat, bs: seq<nat>)
    requires b < 256 && forall i :: 0 <= i < |bs| ==> bs[i] < 256
    ensures Percents([b] + bs) == Percent(b) + Percents(bs)
    ensures bs == [] ==> Percents([b]) == Percent(b)
  {
    hide Percent;
    assert ([b] + bs)[1..] == bs;
    assert [b] + [] == [b];
  }

  lemma Regroup(a: string, b: string, c: string, d: string)
    ensures a + (b + c) == a + b + c && a + (b + (c + d)) == a + b + c + d
  {
  }

  lemma PercentsOfFour(a: nat, b: nat, c: nat, d: nat)
    requires a < 256 && b < 256 && c < 256 && d < 256
    ensures Percents([d]) == Percent(d) && Percents([c, d]) == Percent(c) + Percent(d)
    ensures Percents([b, c, d]) == Percent(b) + Percent(c) + Percent(d)
    ensures Percents([a, b, c, d]) == Percent(a) + Percent(b) + Percent(c) + Percent(d)
  {
    hide Percent, Percents;
    PercentsCons(d, []);
    PercentsCons(c, [d]);
    PercentsCons(b, [c, d]);
    PercentsCons(a, [b, c, d]);
    assert [c] + [d] == [c, d] && [b] + [c, d] == [b, c, d] && [a] + [b, c, d] == [a, b, c, d];
    Regroup(Percent(a), Percent(b), Percent(c), Percent(d));
    Regroup(Percent(b), Percent(c), Percent(d), "");
  }

  /** A plain character is kept, a space becomes a plus sign, and any other rune the percent forms of its bytes. */
  lemma RuneEscapes(c: char)
    ensures Plain(c) ==> EscapeRune(c) == [c]
    ensures c == ' ' ==> EscapeRune(c) == "+"
    ensures !Plain(c) && c != ' ' ==> EscapeRune(c) == Percents(Utf8(c as int))
  {
    hide Percent, Percents;
    if !Plain(c) && c != ' ' {
      var bs := Utf8(c as int);
      var n := |bs|;
      PercentsOfFour(if n > 3 then bs[n - 4] else 0, if n > 2 then bs[n - 3] else 0, if n > 1 then bs[n - 2] else 0, bs[n - 1]);
    }
  }

  lemma RuneIsWell(c: char)
    ensures WellEscaped(EscapeRune(c)) && |EscapeRune(c)| >= 1
    ensures !Plain(c) ==> Marked(EscapeRune(c)[0])
    ensures !Plain(c) && c != ' ' ==> |EscapeRune(c)| >= 3
  {
    hide EscapeRune, Percents, Utf8;
    RuneEscapes(c);
    if Plain(c) || c == ' ' {
      assert EscapeRune(c)[1..] == "";
    } else {
      PercentsAreWell(Utf8(c as int));
    }
  }

  /** The escaped form is well escaped, and differs from the text exactly if the text has a character that is not plain. */
  lemma {:induction false} EscapedShape(t: string)
    ensures WellEscaped(QueryEscape(t))
    ensures QueryEscape(t) == t <==> forall k :: 0 <= k < |t| ==> Plain(t[k])
    ensures QueryEscape(t) != t ==> exists k :: 0 <= k < |QueryEscape(t)| && Marked(QueryEscape(t)[k])
  {
    hide EscapeRune, WellEscaped, Plain;
    if t == "" {
      NothingIsWell();
    } else {
      var head, rest := EscapeRune(t[0]), QueryEscape(t[1..]);
      RuneEscapes(t[0]);
      RuneIsWell(t[0]);
      EscapedShape(t[1..]);
      WellEscapedConcat(head, rest);
      assert t == [t[0]] + t[1..] && QueryEscape(t) == head + rest;
      if Plain(t[0]) {
        assert (head + rest)[1..] == rest;
        if k :| 0 <= k < |rest| && Marked(rest[k]) {
          assert Marked(QueryEscape(t)[k + 1]);
        }
        PlainTail(t);
      } else {
        EscapeIsNoShorter(t[1..]);
        assert Marked(QueryEscape(t)[0]);
      }
    }
  }

  lemma NothingIsWell()
    ensures WellEscaped("")
  {
  }

  lemma PlainTail(t: string)
    requires t != "" && Plain(t[0])
    ensures (forall k :: 0 <= k < |t| ==> Plain(t[k])) <==> (forall k :: 0 <= k < |t[1..]| ==> Plain(t[1..][k]))
  {
    hide Plain;
    assert forall k :: 0 < k < |t| ==> t[k] == t[1..][k - 1];
    assert forall k :: 0 <= k < |t[1..]| ==> t[1..][k] == t[k + 1];
  }

  // ---------------------------------------------------------------- reading it back

  function HexValue(c: char): nat {
    if '0' <= c <= '9' then c as int - '0' as int
    else if 'A' <= c <= 'F' then c as int - 'A' as int + 10
    else if 'a' <= c <= 'f' then c as int - 'a' as int + 10
    else 0
  }

  /** The bytes that a query-escaped text stands for. */
  function Unescaped(e: string): seq<nat> {
    if e == "" then []
    else if e[0] == '%' && |e| >= 3 then [16 * HexValue(e[1]) + HexValue(e[2])] + Unescaped(e[3..])
    else if e[0] == '+' then [0x20] + Unescaped(e[1..])
    else [e[0] as int] + Unescaped(e[1..])
  }

  /** The runes that bytes in UTF-8 stand for, told apart by their first byte. */
  function Runes(bs: seq<nat>): seq<int>
    decreases |bs|
  {
    if |bs| == 0 then []
    else if bs[0] >= 0xF0 && |bs| >= 4 then
      [(bs[0] - 0xF0) * 0x4_0000 + (bs[1] - 0x80) * 0x1000 + (bs[2] - 0x80) * 0x40 + (bs[3] - 0x80)] + Runes(bs[4..])
    else if 0xE0 <= bs[0] < 0xF0 && |bs| >= 3 then
      [(bs[0] - 0xE0) * 0x1000 + (bs[1] - 0x80) * 0x40 + (bs[2] - 0x80)] + Runes(bs[3..])
    else if 0xC0 <= bs[0] < 0xE0 && |bs| >= 2 then [(bs[0] - 0xC0) * 0x40 + (bs[1] - 0x80)] + Runes(bs[2..])
    else [bs[0]] + Runes(bs[1..])
  }

  function CodePoints(t: string): seq<int> {
    if t == "" then [] else [t[0] as int] + CodePoints(t[1..])
  }

  lemma HexIsRead(b: nat, rest: string)
    requires b < 256
    ensures Unescaped(Percent(b) + rest) == [b] + Unescaped(rest)
  {
    var e := Percent(b) + rest;
    assert e[3..] == rest;
    assert HexValue(e[1]) == b / 16 && HexValue(e[2]) == b % 16;
  }

  lemma {:induction false} PercentsAreRead(bs: seq<nat>, rest: string)
    requires forall i :: 0 <= i < |bs| ==> bs[i] < 256
    ensures Unescaped(Percents(bs) + rest) == bs + Unescaped(rest)
    decreases |bs|
  {
    hide Percent, Unescaped;
    if |bs| == 0 {
      assert Percents(bs) + rest == rest;
    } else {
      HexIsRead(bs[0], Percents(bs[1..]) + rest);
      PercentsAreRead(bs[1..], rest);
      assert Percents(bs) + rest == Percent(bs[0]) + (Percents(bs[1..]) + rest);
      assert [bs[0]] + (bs[1..] + Unescaped(rest)) == bs + Unescaped(rest);
    }
  }

  lemma RuneIsRead(c: char, rest: string)
    ensures Unescaped(EscapeRune(c) + rest) == Utf8(c as int) + Unescaped(rest)
  {
    hide Percents, EscapeRune;
    RuneEscapes(c);
    if Plain(c) || c == ' ' {
      assert (EscapeRune(c) + rest)[1..] == rest;
    } else {
      PercentsAreRead(Utf8(c as int), rest);
    }
  }

  /** Digits to the base 64, most significant first. */
  lemma Digits(n: nat)
    ensures n == n / 0x40 * 0x40 + n % 0x40
    ensures n == n / 0x1000 * 0x1000 + n / 0x40 % 0x40 * 0x40 + n % 0x40
    ensures n == n / 0x4_0000 * 0x4_0000 + n / 0x1000 % 0x40 * 0x1000 + n / 0x40 % 0x40 * 0x40 + n % 0x40
  {
    assert n / 0x1000 == n / 0x40 / 0x40 && n / 0x4_0000 == n / 0x1000 / 0x40;
  }

  lemma Utf8IsRead(n: nat, rest: seq<nat>)
    requires n < 0x11_0000
    ensures Runes(Utf8(n) + rest) == [n] + Runes(rest)
  {
    var all := Utf8(n) + rest;
    assert all[|Utf8(n)|..] == rest;
    Digits(n);
  }

  /** Every text can be read back from its escaped form, so no two texts share one. */
  lemma {:induction false} EscapeRoundTrips(t: string)
    ensures Runes(Unescaped(QueryEscape(t))) == CodePoints(t)
  {
    hide EscapeRune, Unescaped, Runes, Utf8;
    if t == "" {
      NothingIsRead();
    } else {
      EscapeRoundTrips(t[1..]);
      RuneIsRead(t[0], QueryEscape(t[1..]));
      Utf8IsRead(t[0] as int, Unescaped(QueryEscape(t[1..])));
    }
  }

  lemma NothingIsRead()
    ensures Unescaped("") == [] && Runes([]) == []
  {
  }

  // ---------------------------------------------------------------- it is never shown

  lemma {:induction false} EscapedCharacters(e: string, k: nat)
    requires WellEscaped(e) && k < |e|
    ensures Plain(e[k]) || Marked(e[k])
    decreases |e|
  {
    if Plain(e[0]) || e[0] == '+' {
      if k > 0 {
        EscapedCharacters(e[1..], k - 1);
      }
    } else if k >= 3 {
      EscapedCharacters(e[3..], k - 3);
    }
  }

  /** An escaped form that differs from its text can nowhere overlap the marker. */
  lemma EscapedIsClear(t: string)
    requires t != "" && QueryEscape(t) != t
    ensures Clear(QueryEscape(t))
  {
    hide QueryEscape, WellEscaped;
    var e := QueryEscape(t);
    EscapedShape(t);
    EscapeIsNoShorter(t);
    var m :| 0 <= m < |e| && Marked(e[m]);
    forall offset | -|e| < offset < |MARK| ensures Clashes(e, offset) {
      var k := if offset <= 0 then -offset else if offset + |e| > 9 then 9 - offset else m;
      EscapedCharacters(e, k);
      assert e[k] != MARK[k + offset];
    }
  }

  lemma EscapedTokenIsRemoved(msg: string, sensitive: string)
    requires var t := TrimSpace(sensitive); t != "" && QueryEscape(t) != t
    ensures !Occurs(RedactToken(msg, sensitive), QueryEscape(TrimSpace(sensitive)))
  {
    hide TrimSpace, QueryEscape, Redact, Occurs, Clear;
    var t := TrimSpace(sensitive);
    var e, once := QueryEscape(t), Redact(Literal(t), msg);
    EscapedIsClear(t);
    NoneBefore(once, e);
    RedactRemoves("", once, e);
    assert "" + Redact(Literal(e), once) == Redact(Literal(e), once);
  }

  lemma NoneBefore(s: string, t: string)
    ensures NoneStartsIn("", s, t)
  {
  }

  lemma {:induction false} EscapedTokensAreRemoved(msg: string, sensitive: seq<string>, i: nat)
    requires i < |sensitive|
    requires var t := TrimSpace(sensitive[i]); t != "" && QueryEscape(t) != t
    ensures !Occurs(RedactTokens(msg, sensitive), QueryEscape(TrimSpace(sensitive[i])))
    decreases i
  {
    hide TrimSpace, QueryEscape, RedactToken, Occurs, Clear;
    var next := RedactToken(msg, sensitive[0]);
    if i == 0 {
      EscapedTokenIsRemoved(msg, sensitive[0]);
      EscapedIsClear(TrimSpace(sensitive[0]));
      RedactTokensKeepAbsent(next, sensitive[1..], QueryEscape(TrimSpace(sensitive[0])));
    } else {
      EscapedTokensAreRemoved(next, sensitive[1..], i - 1);
    }
  }

  /** No character of the prefix marks an escaped form, and no escaped form has a space, so it cannot reach into the prefix. */
  lemma PrefixHidesNoEscape(t: string)
    requires t != "" && QueryEscape(t) != t
    ensures var e := QueryEscape(t);
      && !Occurs(FAILURE_PREFIX, e)
      && forall k: nat :: 0 < k <= |e| && k <= |FAILURE_PREFIX| ==> e[..k] != FAILURE_PREFIX[|FAILURE_PREFIX| - k..]
  {
    hide QueryEscape, WellEscaped;
    var e := QueryEscape(t);
    EscapedShape(t);
    var m :| 0 <= m < |e| && Marked(e[m]);
    assert forall i :: 0 <= i < |FAILURE_PREFIX| ==> !Marked(FAILURE_PREFIX[i]);
    forall i: nat ensures !OccursAt(FAILURE_PREFIX, e, i) {
      OccursChar(FAILURE_PREFIX, e, i, m);
    }
    forall k: nat | 0 < k <= |e| && k <= |FAILURE_PREFIX| ensures e[..k] != FAILURE_PREFIX[|FAILURE_PREFIX| - k..] {
      EscapedCharacters(e, k - 1);
      assert e[..k][k - 1] == e[k - 1];
      assert FAILURE_PREFIX[|FAILURE_PREFIX| - k..][k - 1] == FAILURE_PREFIX[|FAILURE_PREFIX| - 1] == ' ';
    }
  }

  /**
    For every message and every list of tokens: the query-escaped form of a token, where it differs
    from the token, does not occur in the returned error, in the prefix or behind it. No condition
    on the token is needed.
   */
  lemma EscapedFormIsNeverShown(msg: string, sensitive: seq<string>, i: nat)
    requires i < |sensitive|
    requires var t := TrimSpace(sensitive[i]); t != "" && QueryEscape(t) != t
    ensures !Occurs(ErrorText(msg, sensitive), QueryEscape(TrimSpace(sensitive[i])))
  {
    hide TrimSpace, QueryEscape, Redact, RedactTokens, Occurs, Clear, FAILURE_PREFIX;
    var e, tokens := QueryEscape(TrimSpace(sensitive[i])), RedactTokens(msg, sensitive);
    EscapedIsClear(TrimSpace(sensitive[i]));
    EscapedTokensAreRemoved(msg, sensitive, i);
    RedactKeepsAbsent(DsnPassword, tokens, e);
    RedactKeepsAbsent(UriPassword, Redact(DsnPassword, tokens), e);
    PrefixHidesNoEscape(TrimSpace(sensitive[i]));
    OccursInJoined(FAILURE_PREFIX, SanitizedPart(msg, sensitive), e);
  }

  // ---------------------------------------------------------------- trimming

  /** The runes with the property White_Space. */
  const WHITE := {
    '\t', '\n', '\U{000B}', '\U{000C}', '\r', ' ', '\U{0085}', '\U{00A0}', '\U{1680}', '\U{2000}', '\U{2001}',
    '\U{2002}', '\U{2003}', '\U{2004}', '\U{2005}', '\U{2006}', '\U{2007}', '\U{2008}', '\U{2009}', '\U{200A}',
    '\U{2028}', '\U{2029}', '\U{202F}', '\U{205F}', '\U{3000}' }

  lemma SpacesAreWhite(c: char)
    ensures IsSpace(c) <==> c in WHITE
  {
  }

  /** The part from i to j, with white space on both sides and at neither of its own ends. */
  ghost predicate TrimmedTo(s: string, i: nat, j: nat) {
    && i <= j <= |s|
    && (forall k :: 0 <= k < i || j <= k < |s| ==> s[k] in WHITE)
    && (i < j ==> s[i] !in WHITE && s[j - 1] !in WHITE)
  }

  /** A token is what is left of it between the white space around it. */
  lemma {:induction false} TrimmedIs(s: string) returns (i: nat, j: nat)
    ensures TrimmedTo(s, i, j) && TrimSpace(s) == s[i..j]
    decreases |s|
  {
    hide IsSpace, WHITE;
    i, j := 0, |s|;
    if s != "" {
      SpacesAreWhite(s[0]);
      SpacesAreWhite(s[|s| - 1]);
      if IsSpace(s[0]) {
        var rest := s[1..];
        assert forall k :: 0 < k < |s| ==> s[k] == rest[k - 1];
        i, j := TrimmedIs(rest);
        assert rest[i..j] == s[i + 1..j + 1];
        i, j := i + 1, j + 1;
      } else if IsSpace(s[|s| - 1]) {
        var rest := s[..|s| - 1];
        i, j := TrimmedIs(rest);
        assert rest[i..j] == s[i..j];
      }
    }
  }

  // ---------------------------------------------------------------- the patterns, in plain characters

  const BLANK := {'\t', '\n', '\U{000C}', '\r', ' '}

  /** The word password and an equals sign, in any mixture of cases; the long s counts as an s. */
  predicate PasswordKey(x: string, i: nat) {
    i + 9 <= |x| && forall k :: 0 <= k < 9 ==>
      x[i + k] in {"password="[k], "PASSWORD="[k]} || (2 <= k <= 3 && x[i + k] == '\U{017F}')
  }

  /** From i to j a value that the key before it gives: not empty, and as long as it can be. */
  predicate KeyValue(x: string, i: nat, j: nat) {
    && i >= 9 && PasswordKey(x, i - 9) && i < j <= |x|
    && (forall k :: i <= k < j ==> x[k] !in {'&', ';'} + BLANK)
    && (j < |x| ==> x[j] in {'&', ';'} + BLANK)
  }

  /** From i to j a password between a colon and an at sign, as in an address. */
  predicate AddressValue(x: string, i: nat, j: nat) {
    && 0 < i < j < |x| && x[i - 1] == ':' && x[j] == '@'
    && forall k :: i <= k < j ==> x[k] !in {':', '@', '/'} + BLANK
  }

  lemma KeyIsFolded(x: string, i: nat)
    ensures PasswordKey(x, i) <==> KeyAt(x, i)
  {
    if i + 9 <= |x| {
      forall k | 0 <= k < 9
        ensures FoldsTo(x[i + k], "password="[k]) <==>
          x[i + k] in {"password="[k], "PASSWORD="[k]} || (2 <= k <= 3 && x[i + k] == '\U{017F}')
      {
        Folding(x[i + k], k);
      }
    }
  }

  lemma Folding(c: char, k: nat)
    requires k < 9
    ensures FoldsTo(c, "password="[k]) <==> c in {"password="[k], "PASSWORD="[k]} || (2 <= k <= 3 && c == '\U{017F}')
  {
  }

  /** In the sanitized part of every error the value of each password key, and the password of each address, is the marker. */
  lemma ValuesAreRedacted(msg: string, sensitive: seq<string>, i: nat, j: nat)
    ensures var x := SanitizedPart(msg, sensitive);
      KeyValue(x, i, j) || AddressValue(x, i, j) ==> x[i..j] == "[REDACTED]"
  {
    hide SanitizedPart, KeyAt, PasswordKey;
    var x := SanitizedPart(msg, sensitive);
    SanitizedIsDone(msg, sensitive);
    if KeyValue(x, i, j) {
      KeyIsFolded(x, i - 9);
      assert DsnAt(x, i - 9, j - i);
    }
    if AddressValue(x, i, j) {
      assert UriAt(x, i - 1, j - i);
    }
  }

  // ---------------------------------------------------------------- and nothing else is

  /** At i a value begins that a key gives. */
  ghost predicate ValueFrom(x: string, i: nat) {
    exists j :: KeyValue(x, i, j)
  }

  /** At i the password of an address begins. */
  ghost predicate AddressFrom(x: string, i: nat) {
    exists j :: AddressValue(x, i, j)
  }

  lemma NoneInTail(p: Pattern, s: string, n: nat)
    requires 0 < n <= |s| && forall k :: 0 <= k < n ==> Match(p, s[k..]).None?
    ensures forall k :: 0 <= k < n - 1 ==> Match(p, s[1..][k..]).None?
  {
    hide Match;
    forall k | 0 <= k < n - 1 ensures Match(p, s[1..][k..]).None? {
      assert s[1..][k..] == s[k + 1..];
    }
  }

  /** Text before which the pattern does not match is passed over. */
  lemma {:induction false} PassedOver(p: Pattern, s: string, n: nat)
    requires !p.Literal? && n <= |s| && forall k :: 0 <= k < n ==> Match(p, s[k..]).None?
    ensures Redact(p, s) == s[..n] + Redact(p, s[n..])
    decreases n
  {
    hide Redact, Match;
    if n > 0 {
      assert s[0..] == s;
      PatternStep(p, s);
      NoneInTail(p, s, n);
      PassedOver(p, s[1..], n - 1);
      SplitAfterHead(s, n);
      Between([s[0]], s[1..][..n - 1], Redact(p, s[n..]));
    } else {
      assert s[..0] == "" && s[0..] == s;
    }
  }

  lemma NoKeyNoMatch(s: string, k: nat)
    requires k <= |s|
    ensures Match(DsnPassword, s[k..]).Some? ==> ValueFrom(s, k + 9)
  {
    hide PasswordKey, KeyAt;
    DsnMatchIs(s[k..], 0);
    if n: nat :| DsnAt(s[k..], 0, n) {
      AtSuffix(s, k, 0, n);
      KeyIsFolded(s, k);
      assert KeyValue(s, k + 9, k + 9 + n);
    }
  }

  lemma NoAddressNoMatch(s: string, k: nat)
    requires k <= |s|
    ensures Match(UriPassword, s[k..]).Some? ==> AddressFrom(s, k + 1)
  {
    UriMatchIs(s[k..], 0);
    if n: nat :| UriAt(s[k..], 0, n) {
      AtSuffix(s, k, 0, n);
      assert AddressValue(s, k + 1, k + 1 + n);
    }
  }

  lemma KeyValueStep(s: string, i: nat, j: nat)
    requires KeyValue(s, i, j)
    ensures s[..i - 9] + Redact(DsnPassword, s[i - 9..]) == s[..i] + "[REDACTED]" + Redact(DsnPassword, s[j..])
  {
    hide Redact, KeyAt, PasswordKey;
    var rest := s[i - 9..];
    KeyIsFolded(s, i - 9);
    assert DsnAt(s, i - 9, j - i);
    AtSuffix(s, i - 9, 0, j - i);
    DsnStep(rest, j - i);
    assert rest[..9] == s[i - 9..i] && rest[9 + (j - i)..] == s[j..];
    Moved(s[..i - 9], s[i - 9..i], MARK, Redact(DsnPassword, s[j..]));
    assert s[..i - 9] + s[i - 9..i] == s[..i];
  }

  lemma Moved(a: string, b: string, c: string, d: string)
    ensures a + (b + c + d) == (a + b) + c + d
  {
  }

  lemma AddressValueStep(s: string, i: nat, j: nat)
    requires AddressValue(s, i, j)
    ensures s[..i - 1] + Redact(UriPassword, s[i - 1..]) == s[..i] + "[REDACTED]" + "@" + Redact(UriPassword, s[j + 1..])
  {
    hide Redact;
    var rest := s[i - 1..];
    assert UriAt(s, i - 1, j - i);
    AtSuffix(s, i - 1, 0, j - i);
    UriStep(rest, j - i);
    assert rest[j - i + 2..] == s[j + 1..];
    Moved(s[..i - 1], [':'], MARK + ['@'], Redact(UriPassword, s[j + 1..]));
    Moved([], [':'], MARK, ['@']);
    assert s[..i - 1] + [':'] == s[..i];
    Moved("", s[..i], MARK, "@");
    assert s[..i] + (MARK + ['@']) == s[..i] + MARK + "@";
    assert [':'] + MARK + ['@'] == [':'] + (MARK + ['@']);
  }

  /** The first pattern puts the marker in place of the first value, goes on behind it, and leaves a text without values alone. */
  lemma KeyValuesAreReplaced(s: string, i: nat, j: nat)
    ensures KeyValue(s, i, j) && (forall k :: 0 <= k < i ==> !ValueFrom(s, k)) ==>
      Redact(DsnPassword, s) == s[..i] + "[REDACTED]" + Redact(DsnPassword, s[j..])
    ensures (forall k: nat :: !ValueFrom(s, k)) ==> Redact(DsnPassword, s) == s
  {
    hide Redact, Match, KeyAt, PasswordKey, DsnAt, ValueFrom;
    forall k | 0 <= k <= |s| ensures Match(DsnPassword, s[k..]).Some? ==> ValueFrom(s, k + 9) {
      NoKeyNoMatch(s, k);
    }
    if KeyValue(s, i, j) && forall k :: 0 <= k < i ==> !ValueFrom(s, k) {
      PassedOver(DsnPassword, s, i - 9);
      KeyValueStep(s, i, j);
    }
    if forall k: nat :: !ValueFrom(s, k) {
      PassedOver(DsnPassword, s, |s|);
      PatternStep(DsnPassword, s[|s|..]);
    }
  }

  /** Likewise the second, which keeps the colon and the at sign. */
  lemma AddressValuesAreReplaced(s: string, i: nat, j: nat)
    ensures AddressValue(s, i, j) && (forall k :: 0 <= k < i ==> !AddressFrom(s, k)) ==>
      Redact(UriPassword, s) == s[..i] + "[REDACTED]" + "@" + Redact(UriPassword, s[j + 1..])
    ensures (forall k: nat :: !AddressFrom(s, k)) ==> Redact(UriPassword, s) == s
  {
    hide Redact, Match, UriAt, AddressFrom;
    forall k | 0 <= k <= |s| ensures Match(UriPassword, s[k..]).Some? ==> AddressFrom(s, k + 1) {
      NoAddressNoMatch(s, k);
    }
    if AddressValue(s, i, j) && forall k :: 0 <= k < i ==> !AddressFrom(s, k) {
      PassedOver(UriPassword, s, i - 1);
      AddressValueStep(s, i, j);
    }
    if forall k: nat :: !AddressFrom(s, k) {
      PassedOver(UriPassword, s, |s|);
      PatternStep(UriPassword, s[|s|..]);
    }
  }

  /** A token gives way to the marker where it first occurs, and what follows is searched on. */
  lemma TokensAreReplaced(t: string, a: string, b: string)
    requires t != "" && NoneStartsIn(a, t + b, t)
    ensures Redact(Literal(t), a + t + b) == a + "[REDACTED]" + Redact(Literal(t), b)
  {
    hide Redact;
    assert a + t + b == a + (t + b);
    RedactSkips(a, t + b, t);
    LiteralStep(t, t + b);
    assert t <= t + b && (t + b)[|t|..] == b;
    assert a + (MARK + Redact(Literal(t), b)) == a + MARK + Redact(Literal(t), b);
  }

  /** The text has neither a value nor any of the tokens in it, plain or escaped. */
  ghost predicate Harmless(msg: string, sensitive: seq<string>) {
    && (forall k: nat :: !ValueFrom(msg, k) && !AddressFrom(msg, k))
    && forall i :: 0 <= i < |sensitive| && TrimSpace(sensitive[i]) != "" ==>
        !Occurs(msg, TrimSpace(sensitive[i])) && !Occurs(msg, QueryEscape(TrimSpace(sensitive[i])))
  }

  lemma {:induction false} AbsentTokensDoNothing(msg: string, sensitive: seq<string>)
    requires forall i :: 0 <= i < |sensitive| && TrimSpace(sensitive[i]) != "" ==>
      !Occurs(msg, TrimSpace(sensitive[i])) && !Occurs(msg, QueryEscape(TrimSpace(sensitive[i])))
    ensures RedactTokens(msg, sensitive) == msg
    decreases |sensitive|
  {
    hide TrimSpace, QueryEscape, Occurs, Redact;
    if |sensitive| > 0 {
      var t := TrimSpace(sensitive[0]);
      if t != "" {
        EscapeIsNoShorter(t);
        AbsentIsUnmatched(msg, t);
        AbsentIsUnmatched(msg, QueryEscape(t));
      }
      AbsentTokensDoNothing(msg, sensitive[1..]);
    }
  }

  /** Such a text is returned as it is, behind the prefix. */
  lemma HarmlessIsKept(msg: string, sensitive: seq<string>)
    requires Harmless(msg, sensitive)
    ensures ErrorText(msg, sensitive) == "database authentication failed: " + msg
  {
    hide Redact, RedactTokens, TrimSpace, QueryEscape, Occurs, ValueFrom, AddressFrom;
    AbsentTokensDoNothing(msg, sensitive);
    KeyValuesAreReplaced(msg, 0, 0);
    AddressValuesAreReplaced(msg, 0, 0);
  }
}
