/**
  Exactly which tokens can come back through the sanitizer: a token returns when the marker, put in
  place of something else, completes it, and leaks when neither pattern then takes it away.
 */
module Leaks {
  import opened Options
  import opened Redaction

  // ---------------------------------------------------------------- a second token that leaves a marker

  lemma AbsentIsUnmatched(s: string, t: string)
    requires t != "" && !Occurs(s, t)
    ensures Redact(Literal(t), s) == s
  {
    forall i | 0 <= i <= |s| ensures Match(Literal(t), s[i..]).None? {
      if t <= s[i..] {
        assert s[i..i + |t|] == s[i..][..|t|];
        assert OccursAt(s, t, i);
      }
    }
    RedactLeavesUnmatched(Literal(t), s);
  }

  /** Text in which no match starts is passed over. */
  lemma {:induction false} RedactSkips(z: string, s: string, t: string)
    requires t != "" && NoneStartsIn(z, s, t)
    ensures Redact(Literal(t), z + s) == z + Redact(Literal(t), s)
    decreases |z|
  {
    hide Redact, Match;
    if z == "" {
      assert z + s == s;
    } else {
      var all := z + s;
      assert all[1..] == z[1..] + s && all[0] == z[0];
      assert !OccursAt(all, t, 0) && !(t <= all);
      LiteralStep(t, all);
      forall i: nat | i < |z[1..]| ensures !OccursAt(z[1..] + s, t, i) {
        assert !OccursAt(all, t, i + 1);
        OccursRight([z[0]], z[1..] + s, t, i);
        assert [z[0]] + (z[1..] + s) == all;
      }
      RedactSkips(z[1..], s, t);
      assert [z[0]] + (z[1..] + Redact(Literal(t), s)) == z + Redact(Literal(t), s);
    }
  }

  function Letters(x: char, n: nat): string {
    seq(n, i => x)
  }

  /** A long block of one letter keeps apart what stands before and after it. */
  lemma BlockSeparates(a: string, x: char, n: nat, b: string, t: string)
    requires |a| < |t| <= n && |b| < |t| && t[0] != x && t[|t| - 1] != x
    ensures !Occurs(a + Letters(x, n) + b, t)
  {
    var all := a + Letters(x, n) + b;
    assert forall k :: |a| <= k < |a| + n ==> all[k] == x;
    forall i: nat ensures !OccursAt(all, t, i) {
      OccursChar(all, t, i, 0);
      OccursChar(all, t, i, |t| - 1);
    }
  }

  lemma BlockStartsLater(a: string, x: char, n: nat, b: string)
    requires |a| < n && (a != "" ==> a[|a| - 1] != x)
    ensures NoneStartsIn(a, Letters(x, n) + b, Letters(x, n))
  {
    var u := Letters(x, n);
    forall i: nat | i < |a| ensures !OccursAt(a + (u + b), u, i) {
      OccursChar(a + (u + b), u, i, |a| - 1 - i);
    }
  }

  lemma Between(a: string, m: string, b: string)
    ensures a + m + b == a + (m + b)
  {
  }

  lemma BlockBecomesMark(a: string, x: char, n: nat, b: string)
    requires |a| < n && |b| < n && (a != "" ==> a[|a| - 1] != x)
    ensures Redact(Literal(Letters(x, n)), a + Letters(x, n) + b) == a + MARK + b
  {
    hide Redact, Match;
    var u := Letters(x, n);
    BlockStartsLater(a, x, n, b);
    RedactSkips(a, u + b, u);
    LiteralStep(u, u + b);
    assert u <= u + b && (u + b)[|u|..] == b;
    AbsentIsUnmatched(b, u);
    Between(a, u, b);
    Between(a, MARK, b);
  }

  lemma EscapeIsNoShorter(t: string)
    ensures |QueryEscape(t)| >= |t|
  {
  }

  /** Six letters are enough to avoid five. */
  lemma SpareLetter(avoid: seq<char>) returns (x: char)
    requires |avoid| <= 5
    ensures 'A' <= x <= 'Z' && x !in avoid
  {
    var letters := {'P', 'Q', 'S', 'U', 'V', 'W'};
    var avoided := set i | 0 <= i < |avoid| :: avoid[i];
    SetOfSeq(avoid);
    assert letters <= (letters - avoided) + avoided;
    SubsetSize(letters, (letters - avoided) + avoided);
    x :| x in letters - avoided;
  }

  lemma SetOfSeq(s: seq<char>)
    ensures |set i | 0 <= i < |s| :: s[i]| <= |s|
  {
    if |s| > 0 {
      var n := |s| - 1;
      SetOfSeq(s[..n]);
      assert (set i | 0 <= i < |s| :: s[i]) == (set i | 0 <= i < |s[..n]| :: s[..n][i]) + {s[n]};
    }
  }

  lemma SubsetSize(a: set<char>, b: set<char>)
    requires a <= b
    ensures |a| <= |b|
  {
    if a != {} {
      var x :| x in a;
      SubsetSize(a - {x}, b - {x});
    }
  }

  lemma LettersAreThemselves(x: char, n: nat)
    requires 'A' <= x <= 'Z' && n > 0
    ensures TrimSpace(Letters(x, n)) == Letters(x, n) && QueryEscape(Letters(x, n)) == Letters(x, n)
  {
    QueryEscapeKeepsLetters(Letters(x, n));
  }

  lemma TwoTokens(msg: string, t: string, u: string)
    ensures RedactTokens(msg, [t, u]) == RedactToken(RedactToken(msg, t), u)
  {
    assert [t, u][1..] == [u];
    OneToken(RedactToken(msg, t), u);
  }

  lemma AbsentTokenDoesNothing(msg: string, t: string)
    requires t != "" && TrimSpace(t) == t && !Occurs(msg, t) && !Occurs(msg, QueryEscape(t)) && QueryEscape(t) != ""
    ensures RedactToken(msg, t) == msg
  {
    AbsentIsUnmatched(msg, t);
    AbsentIsUnmatched(msg, QueryEscape(t));
  }

  /** Around a block of letters, made a token of its own, any short text survives and gets a marker in its middle. */
  lemma MarkerAppears(t: string, a: string, b: string) returns (msg: string, u: string)
    requires t != "" && TrimSpace(t) == t && |a| < |t| && |b| < |t|
    ensures RedactTokens(msg, [t, u]) == a + MARK + b
  {
    hide TrimSpace, Occurs, Redact, RedactTokens, QueryEscape;
    EscapeIsNoShorter(t);
    var e := QueryEscape(t);
    var avoid := [t[0], t[|t| - 1], e[0], e[|e| - 1], if a == "" then t[0] else a[|a| - 1]];
    var x := SpareLetter(avoid);
    assert avoid[0] != x && avoid[1] != x && avoid[2] != x && avoid[3] != x && avoid[4] != x;
    u := Letters(x, |e|);
    msg := a + u + b;
    BlockSeparates(a, x, |e|, b, t);
    BlockSeparates(a, x, |e|, b, e);
    AbsentTokenDoesNothing(msg, t);
    LettersAreThemselves(x, |e|);
    BlockBecomesMark(a, x, |e|, b);
    TwoTokens(msg, t, u);
  }

  // ---------------------------------------------------------------- the replacement of tokens

  /** What stands before and after the marker when the token is laid over it at that offset. */
  function Before(t: string, offset: int): string
    requires -|t| < offset
  {
    if offset < 0 then t[..-offset] else ""
  }

  function After(t: string, offset: int): string
    requires -|t| < offset < |MARK|
  {
    if |t| + offset > |MARK| then t[|MARK| - offset..] else ""
  }

  function Around(t: string, offset: int): string
    requires -|t| < offset < |MARK|
  {
    Before(t, offset) + MARK + After(t, offset)
  }

  /** Where a token agrees with the marker, text around a marker completes it. */
  lemma Completed(t: string, offset: int)
    requires t != "" && -|t| < offset < |MARK| && !Clashes(t, offset)
    ensures |Before(t, offset)| < |t| && |After(t, offset)| < |t|
    ensures Occurs(Around(t, offset), t)
  {
    var all := Around(t, offset);
    var i: nat := if offset < 0 then 0 else offset;
    assert i + |t| <= |all|;
    forall k | 0 <= k < |t| ensures all[i..i + |t|][k] == t[k] {
    }
    assert OccursAt(all, t, i);
  }

  /** The token does not survive the replacement of tokens, whatever the message and the other tokens. */
  ghost predicate NeverReturns(t: string) {
    forall msg, sensitive, i :: 0 <= i < |sensitive| && TrimSpace(sensitive[i]) == t ==>
      !Occurs(RedactTokens(msg, sensitive), t)
  }

  /** The token does not survive the whole sanitizer. */
  ghost predicate NeverLeaks(t: string) {
    forall msg, sensitive, i :: 0 <= i < |sensitive| && TrimSpace(sensitive[i]) == t ==>
      !Occurs(SanitizedPart(msg, sensitive), t)
  }

  lemma Overlap(t: string) returns (offset: int)
    requires t != "" && !Clear(t)
    ensures -|t| < offset < |MARK| && !Clashes(t, offset)
  {
    offset :| -|t| < offset < |MARK| && !Clashes(t, offset);
  }

  /** The replacement of tokens is safe for exactly the clear tokens. */
  lemma TokenPassIsSafeIff(t: string)
    requires t != "" && TrimSpace(t) == t
    ensures NeverReturns(t) <==> Clear(t)
  {
    hide Redact, RedactTokens, TrimSpace, Occurs, Clear, Before, After;
    if Clear(t) {
      forall msg, sensitive, i | 0 <= i < |sensitive| && TrimSpace(sensitive[i]) == t
        ensures !Occurs(RedactTokens(msg, sensitive), t)
      {
        RedactTokensRemove(msg, sensitive, i);
      }
    } else {
      var offset := Overlap(t);
      Completed(t, offset);
      var msg, u := MarkerAppears(t, Before(t, offset), After(t, offset));
      var sensitive := [t, u];
      assert TrimSpace(sensitive[0]) == t;
      assert Occurs(RedactTokens(msg, sensitive), t);
    }
  }

  // ---------------------------------------------------------------- the two patterns, by position

  predicate DsnChar(c: char) {
    c != '&' && c != ';' && !RegexpSpace(c)
  }

  predicate UriChar(c: char) {
    c != ':' && c != '@' && c != '/' && !RegexpSpace(c)
  }

  predicate KeyAt(x: string, i: nat) {
    i + 9 <= |x| && forall k :: 0 <= k < 9 ==> FoldsTo(x[i + k], "password="[k])
  }

  /** A password key at i and, behind it, a run of n characters that cannot be longer. */
  predicate DsnAt(x: string, i: nat, n: nat) {
    && KeyAt(x, i) && n > 0 && i + 9 + n <= |x|
    && (forall k :: i + 9 <= k < i + 9 + n ==> DsnChar(x[k]))
    && (i + 9 + n < |x| ==> !DsnChar(x[i + 9 + n]))
  }

  /** A colon at i, n characters and an at sign. */
  predicate UriAt(x: string, i: nat, n: nat) {
    && i < |x| && x[i] == ':' && n > 0 && i + 1 + n < |x| && x[i + 1 + n] == '@'
    && forall k :: i + 1 <= k < i + 1 + n ==> UriChar(x[k])
  }

  lemma DsnRunShape(s: string)
    ensures var n := DsnRun(s);
      (forall k :: 0 <= k < n ==> DsnChar(s[k])) && (n < |s| ==> !DsnChar(s[n]))
  {
  }

  lemma UriRunShape(s: string)
    ensures var n := UriRun(s);
      (forall k :: 0 <= k < n ==> UriChar(s[k])) && (n < |s| ==> !UriChar(s[n]))
  {
  }

  lemma DsnMatchIs(x: string, n: nat)
    ensures Match(DsnPassword, x) == Some(Hit(9, n, 0)) <==> DsnAt(x, 0, n)
    ensures Match(DsnPassword, x).Some? ==> exists m: nat :: DsnAt(x, 0, m)
  {
    if |x| >= 9 {
      DsnRunShape(x[9..]);
      assert forall k :: 9 <= k < |x| ==> x[k] == x[9..][k - 9];
      if Match(DsnPassword, x).Some? {
        assert DsnAt(x, 0, DsnRun(x[9..]));
      }
    }
  }

  lemma UriMatchIs(x: string, n: nat)
    ensures Match(UriPassword, x) == Some(Hit(1, n, 1)) <==> UriAt(x, 0, n)
    ensures Match(UriPassword, x).Some? ==> exists m: nat :: UriAt(x, 0, m)
  {
    if |x| >= 1 {
      UriRunShape(x[1..]);
      assert forall k :: 1 <= k < |x| ==> x[k] == x[1..][k - 1];
      if Match(UriPassword, x).Some? {
        assert UriAt(x, 0, UriRun(x[1..]));
      }
    }
  }

  /** Behind a key that a run character follows there is a run. */
  lemma RunFrom(x: string, i: nat) returns (n: nat)
    requires KeyAt(x, i) && i + 9 < |x| && DsnChar(x[i + 9])
    ensures DsnAt(x, i, n)
  {
    hide KeyAt, RegexpSpace;
    var run := x[i + 9..];
    n := DsnRun(run);
    DsnRunShape(run);
    assert run[0] == x[i + 9];
    assert forall k :: i + 9 <= k < |x| ==> x[k] == run[k - i - 9];
  }

  lemma AtSuffix(x: string, k: nat, i: nat, n: nat)
    requires k <= |x|
    ensures DsnAt(x[k..], i, n) <==> DsnAt(x, k + i, n)
    ensures UriAt(x[k..], i, n) <==> UriAt(x, k + i, n)
  {
    assert forall j :: k <= j < |x| ==> x[j] == x[k..][j - k];
    assert KeyAt(x[k..], i) <==> KeyAt(x, k + i);
  }

  // ---------------------------------------------------------------- what the patterns leave

  /** Whatever the pattern still matches is the marker. */
  ghost predicate DsnDone(x: string) {
    forall i: nat, n: nat :: DsnAt(x, i, n) ==> x[i + 9..i + 9 + n] == MARK
  }

  ghost predicate UriDone(x: string) {
    forall i: nat, n: nat :: UriAt(x, i, n) ==> x[i + 1..i + 1 + n] == MARK
  }

  lemma DoneSuffix(x: string, k: nat)
    requires k <= |x|
    ensures DsnDone(x) ==> DsnDone(x[k..])
    ensures UriDone(x) ==> UriDone(x[k..])
  {
    if DsnDone(x) {
      forall i: nat, n: nat | DsnAt(x[k..], i, n) ensures x[k..][i + 9..i + 9 + n] == MARK {
        AtSuffix(x, k, i, n);
        assert x[k..][i + 9..i + 9 + n] == x[k + i + 9..k + i + 9 + n];
      }
    }
    if UriDone(x) {
      forall i: nat, n: nat | UriAt(x[k..], i, n) ensures x[k..][i + 1..i + 1 + n] == MARK {
        AtSuffix(x, k, i, n);
        assert x[k..][i + 1..i + 1 + n] == x[k + i + 1..k + i + 1 + n];
      }
    }
  }

  /** The characters a match of the pattern can start with. */
  predicate Starter(p: Pattern, c: char) {
    match p
    case Literal(_) => true
    case DsnPassword => FoldsTo(c, 'p')
    case UriPassword => c == ':'
  }

  lemma PatternStep(p: Pattern, s: string)
    requires !p.Literal?
    ensures s == "" ==> Redact(p, s) == ""
    ensures s != "" && Match(p, s).None? ==> Redact(p, s) == [s[0]] + Redact(p, s[1..])
    ensures s != "" && !Starter(p, s[0]) ==> Match(p, s).None?
    ensures s != "" ==> Redact(p, s) != "" && Redact(p, s)[0] == s[0]
  {
    if s != "" && p.DsnPassword? {
      assert Match(p, s).Some? ==> FoldsTo(s[0], "password="[0]);
    }
  }

  lemma DsnStep(s: string, n: nat)
    requires DsnAt(s, 0, n)
    ensures Redact(DsnPassword, s) == s[..9] + MARK + Redact(DsnPassword, s[9 + n..])
  {
    DsnMatchIs(s, n);
    assert TailOf(s, Hit(9, n, 0)) == "";
    assert s[..9] + MARK + "" == s[..9] + MARK;
  }

  lemma UriStep(s: string, n: nat)
    requires UriAt(s, 0, n)
    ensures Redact(UriPassword, s) == [':'] + MARK + ['@'] + Redact(UriPassword, s[n + 2..])
  {
    UriMatchIs(s, n);
    assert s[..1] == [':'] && TailOf(s, Hit(1, n, 1)) == ['@'];
  }

  lemma SplitAfterHead(u: string, n: nat)
    requires 0 < n <= |u|
    ensures u[..n] == [u[0]] + u[1..][..n - 1] && u[1..][n - 1..] == u[n..]
  {
  }

  /** While no character of the output can start a match, output and input are the same. */
  lemma {:induction false} KeptBeforeStarter(p: Pattern, u: string, n: nat)
    requires !p.Literal? && n <= |Redact(p, u)|
    requires forall k :: 0 <= k < n ==> !Starter(p, Redact(p, u)[k])
    ensures n <= |u| && Redact(p, u) == u[..n] + Redact(p, u[n..])
    decreases n
  {
    hide Redact, Starter;
    PatternStep(p, u);
    var out := Redact(p, u);
    if n > 0 {
      assert !Starter(p, out[0]);
      assert out == [u[0]] + Redact(p, u[1..]);
      assert forall k :: 0 <= k < n - 1 ==> out[k + 1] == Redact(p, u[1..])[k];
      KeptBeforeStarter(p, u[1..], n - 1);
      SplitAfterHead(u, n);
    } else {
      assert u[..0] == "" && u[0..] == u;
    }
  }

  /** The same, read off the input. */
  lemma {:induction false} SkippedBeforeStarter(p: Pattern, u: string, n: nat)
    requires !p.Literal? && n <= |u| && forall k :: 0 <= k < n ==> !Starter(p, u[k])
    ensures Redact(p, u) == u[..n] + Redact(p, u[n..])
    decreases n
  {
    hide Redact, Starter;
    PatternStep(p, u);
    if n > 0 {
      assert !Starter(p, u[0]);
      SkippedBeforeStarter(p, u[1..], n - 1);
      SplitAfterHead(u, n);
    } else {
      assert u[..0] == "" && u[0..] == u;
    }
  }

  lemma KeyStartsOnce(c: char, k: nat)
    requires 0 < k < 9 && FoldsTo(c, "password="[k])
    ensures !FoldsTo(c, 'p') && c != ':'
  {
    assert "password="[k] in "assword=";
  }

  lemma MarkStartsNothing(k: nat)
    requires k < |MARK|
    ensures !FoldsTo(MARK[k], 'p') && MARK[k] != ':' && MARK[k] != '@' && DsnChar(MARK[k]) && UriChar(MARK[k])
    ensures !FoldsTo(MARK[k], '=')
  {
  }

  lemma FirstHit(s: string, uri: bool) returns (n: nat)
    requires if uri then Match(UriPassword, s).Some? else Match(DsnPassword, s).Some?
    ensures if uri then UriAt(s, 0, n) else DsnAt(s, 0, n)
  {
    if uri {
      UriMatchIs(s, 0);
      n :| UriAt(s, 0, n);
    } else {
      DsnMatchIs(s, 0);
      n :| DsnAt(s, 0, n);
    }
  }

  /** An at sign behind a run in the output is behind that run in the input. */
  lemma UriRunKept(s: string, n: nat)
    requires s != "" && Redact(UriPassword, s) == [s[0]] + Redact(UriPassword, s[1..])
    ensures UriAt(Redact(UriPassword, s), 0, n) ==> UriAt(s, 0, n)
  {
    hide Redact, Match, FoldsTo;
    var out, u := Redact(UriPassword, s), s[1..];
    if UriAt(out, 0, n) {
      var rest := Redact(UriPassword, u);
      assert forall k :: 0 <= k < |rest| ==> rest[k] == out[k + 1];
      KeptBeforeStarter(UriPassword, u, n);
      PatternStep(UriPassword, u[n..]);
      assert rest[n] == Redact(UriPassword, u[n..])[0] == u[n];
      assert forall k :: 0 <= k < n ==> u[k] == rest[k];
      assert forall k :: 1 <= k <= n + 1 ==> s[k] == u[k - 1];
    }
  }

  lemma UriJoin(out: string, run: string, rest: string, i: nat, n: nat)
    requires out == [':'] + MARK + ['@'] + rest && UriDone(rest) && UriAt(out, i, n)
    ensures out[i + 1..i + 1 + n] == MARK
  {
    assert forall k :: 1 <= k < 11 ==> out[k] == MARK[k - 1];
    if i == 0 {
      assert forall k :: 0 <= k < 10 ==> UriChar(MARK[k]) by {
        forall k | 0 <= k < 10 ensures UriChar(MARK[k]) {
          MarkStartsNothing(k);
        }
      }
      assert out[11] == '@' && n == 10;
      assert out[1..11] == MARK;
    } else if i < 12 {
      if i < 11 {
        MarkStartsNothing(i - 1);
      }
      assert false;
    } else {
      assert out[12..] == rest;
      AtSuffix(out, 12, i - 12, n);
      assert out[i + 1..i + 1 + n] == rest[i - 12 + 1..i - 12 + 1 + n];
    }
  }

  /** After the second pattern, whatever it matches is the marker. */
  lemma {:induction false} UriOutput(s: string)
    ensures UriDone(Redact(UriPassword, s))
    decreases |s|
  {
    hide Redact, Match;
    var out := Redact(UriPassword, s);
    PatternStep(UriPassword, s);
    if s != "" {
      if Match(UriPassword, s).Some? {
        var n := FirstHit(s, true);
        UriStep(s, n);
        UriOutput(s[n + 2..]);
        forall i: nat, m: nat | UriAt(out, i, m) ensures out[i + 1..i + 1 + m] == MARK {
          UriJoin(out, s[1..n + 1], Redact(UriPassword, s[n + 2..]), i, m);
        }
      } else {
        UriOutput(s[1..]);
        var rest := Redact(UriPassword, s[1..]);
        forall i: nat, m: nat | UriAt(out, i, m) ensures out[i + 1..i + 1 + m] == MARK {
          UriRunKept(s, m);
          UriMatchIs(s, m);
          assert i > 0 && out[1..] == rest;
          AtSuffix(out, 1, i - 1, m);
          assert out[i + 1..i + 1 + m] == rest[i..i + m];
        }
      }
    }
  }

  lemma DsnJoin(out: string, key: string, rest: string, i: nat, n: nat)
    requires out == key + MARK + rest && KeyAt(key, 0) && |key| == 9
    requires rest != "" ==> !DsnChar(rest[0])
    requires DsnDone(rest) && DsnAt(out, i, n)
    ensures out[i + 9..i + 9 + n] == MARK
  {
    assert forall k :: 9 <= k < 19 ==> out[k] == MARK[k - 9];
    assert FoldsTo(out[i], "password="[0]);
    if i == 0 {
      forall k | 0 <= k < 10 ensures DsnChar(MARK[k]) {
        MarkStartsNothing(k);
      }
      assert 19 < |out| ==> out[19] == rest[0];
      assert n == 10;
      assert out[9..19] == MARK;
    } else if i < 9 {
      KeyStartsOnce(key[i], i);
      assert false;
    } else if i < 19 {
      MarkStartsNothing(i - 9);
      assert false;
    } else {
      assert out[19..] == rest;
      AtSuffix(out, 19, i - 19, n);
      assert out[i + 9..i + 9 + n] == rest[i - 19 + 9..i - 19 + 9 + n];
    }
  }

  lemma KeyIsMatched(s: string)
    requires KeyAt(s, 0) && 9 < |s| && DsnChar(s[9])
    ensures Match(DsnPassword, s).Some?
  {
    assert s[9..][0] == s[9];
  }

  lemma DsnKeyKept(s: string, n: nat)
    requires s != "" && Redact(DsnPassword, s) == [s[0]] + Redact(DsnPassword, s[1..])
    ensures DsnAt(Redact(DsnPassword, s), 0, n) ==> Match(DsnPassword, s).Some?
  {
    hide Redact, Match;
    var out, u := Redact(DsnPassword, s), s[1..];
    if DsnAt(out, 0, n) {
      var rest := Redact(DsnPassword, u);
      assert forall k :: 0 <= k < |rest| ==> rest[k] == out[k + 1];
      forall k | 0 <= k < 8 ensures !Starter(DsnPassword, rest[k]) {
        KeyStartsOnce(out[k + 1], k + 1);
      }
      KeptBeforeStarter(DsnPassword, u, 8);
      PatternStep(DsnPassword, u[8..]);
      assert rest[8] == Redact(DsnPassword, u[8..])[0] == u[8];
      assert forall k :: 0 <= k < 9 ==> u[k] == rest[k];
      assert forall k :: 1 <= k < 10 ==> s[k] == u[k - 1] == out[k];
      KeyIsMatched(s);
    }
  }

  /** After the first pattern, whatever it matches is the marker. */
  lemma {:induction false} DsnOutput(s: string)
    ensures DsnDone(Redact(DsnPassword, s))
    decreases |s|
  {
    hide Redact, Match;
    var out := Redact(DsnPassword, s);
    PatternStep(DsnPassword, s);
    if s != "" {
      if Match(DsnPassword, s).Some? {
        var n := FirstHit(s, false);
        DsnStep(s, n);
        DsnOutput(s[9 + n..]);
        PatternStep(DsnPassword, s[9 + n..]);
        forall i: nat, m: nat | DsnAt(out, i, m) ensures out[i + 9..i + 9 + m] == MARK {
          DsnJoin(out, s[..9], Redact(DsnPassword, s[9 + n..]), i, m);
        }
      } else {
        DsnOutput(s[1..]);
        var rest := Redact(DsnPassword, s[1..]);
        forall i: nat, m: nat | DsnAt(out, i, m) ensures out[i + 9..i + 9 + m] == MARK {
          DsnKeyKept(s, m);
          assert i > 0 && out[1..] == rest;
          AtSuffix(out, 1, i - 1, m);
          assert out[i + 9..i + 9 + m] == rest[i - 1 + 9..i - 1 + 9 + m];
        }
      }
    }
  }

  /** A key and a run at the start of the second pattern's output are there in its input, run for run. */
  lemma UriKeepsFirstRun(x: string, n: nat)
    requires DsnDone(x) && DsnAt(Redact(UriPassword, x), 0, n)
    ensures Redact(UriPassword, x)[9..9 + n] == MARK
  {
    hide Redact, Match;
    var out := Redact(UriPassword, x);
    assert FoldsTo(out[0], "password="[0]);
    forall k | 0 <= k < 9 ensures !Starter(UriPassword, out[k]) {
      if k > 0 {
        KeyStartsOnce(out[k], k);
      }
    }
    KeptBeforeStarter(UriPassword, x, 9);
    PatternStep(UriPassword, x[9..]);
    assert out[9] == Redact(UriPassword, x[9..])[0] == x[9];
    assert forall k :: 0 <= k < 10 ==> x[k] == out[k];
    var m := RunFrom(x, 0);
    assert x[9..9 + m] == MARK && m == 10;
    assert forall k :: 9 <= k < 19 ==> x[k] == x[9..19][k - 9] == MARK[k - 9];
    forall k | 0 <= k < 19 ensures !Starter(UriPassword, x[k]) {
      if k >= 9 {
        MarkStartsNothing(k - 9);
      }
    }
    SkippedBeforeStarter(UriPassword, x, 19);
    PatternStep(UriPassword, x[19..]);
    assert 19 < |out| ==> out[19] == Redact(UriPassword, x[19..])[0] == x[19];
    assert forall k :: 9 <= k < 19 ==> out[k] == x[k] && DsnChar(out[k]);
    assert n == 10;
    assert out[9..19] == x[9..19];
  }

  lemma UriKeepsDsnJoin(out: string, rest: string, i: nat, n: nat)
    requires out == [':'] + MARK + ['@'] + rest && DsnDone(rest) && DsnAt(out, i, n)
    ensures out[i + 9..i + 9 + n] == MARK
  {
    assert forall k :: 1 <= k < 11 ==> out[k] == MARK[k - 1];
    assert FoldsTo(out[i], "password="[0]);
    if 1 <= i < 11 {
      MarkStartsNothing(i - 1);
    }
    assert i >= 12;
    assert out[12..] == rest;
    AtSuffix(out, 12, i - 12, n);
    assert out[i + 9..i + 9 + n] == rest[i - 12 + 9..i - 12 + 9 + n];
  }

  /** The second pattern does not undo the work of the first. */
  lemma {:induction false} UriKeepsDsn(x: string)
    requires DsnDone(x)
    ensures DsnDone(Redact(UriPassword, x))
    decreases |x|
  {
    hide Redact, Match;
    var out := Redact(UriPassword, x);
    PatternStep(UriPassword, x);
    if x != "" {
      if Match(UriPassword, x).Some? {
        var n := FirstHit(x, true);
        UriStep(x, n);
        DoneSuffix(x, n + 2);
        UriKeepsDsn(x[n + 2..]);
        forall i: nat, m: nat | DsnAt(out, i, m) ensures out[i + 9..i + 9 + m] == MARK {
          UriKeepsDsnJoin(out, Redact(UriPassword, x[n + 2..]), i, m);
        }
      } else {
        DoneSuffix(x, 1);
        UriKeepsDsn(x[1..]);
        var rest := Redact(UriPassword, x[1..]);
        forall i: nat, m: nat | DsnAt(out, i, m) ensures out[i + 9..i + 9 + m] == MARK {
          if i == 0 {
            UriKeepsFirstRun(x, m);
          } else {
            assert out[1..] == rest;
            AtSuffix(out, 1, i - 1, m);
            assert out[i + 9..i + 9 + m] == rest[i - 1 + 9..i - 1 + 9 + m];
          }
        }
      }
    }
  }

  /** In a sanitized text both patterns match nothing but the marker. */
  lemma SanitizedIsDone(msg: string, sensitive: seq<string>)
    ensures DsnDone(SanitizedPart(msg, sensitive)) && UriDone(SanitizedPart(msg, sensitive))
  {
    hide Redact, RedactTokens;
    var tokens := RedactTokens(msg, sensitive);
    DsnOutput(tokens);
    UriKeepsDsn(Redact(DsnPassword, tokens));
    UriOutput(Redact(DsnPassword, tokens));
  }

  lemma Parts(x: string, i: nat, j: nat)
    requires i <= j <= |x|
    ensures x[..i] + x[i..j] + x[j..] == x
  {
  }

  /** Text in which the patterns match nothing but the marker comes back as it was. */
  lemma {:induction false} DoneIsFixed(p: Pattern, x: string)
    requires !p.Literal? && (if p.DsnPassword? then DsnDone(x) else UriDone(x))
    ensures Redact(p, x) == x
    decreases |x|
  {
    hide Redact, Match;
    PatternStep(p, x);
    if x != "" {
      if Match(p, x).None? {
        DoneSuffix(x, 1);
        DoneIsFixed(p, x[1..]);
        assert [x[0]] + x[1..] == x;
      } else if p.DsnPassword? {
        var n := FirstHit(x, false);
        DsnStep(x, n);
        DoneSuffix(x, 9 + n);
        DoneIsFixed(p, x[9 + n..]);
        Parts(x, 9, 9 + n);
      } else {
        var n := FirstHit(x, true);
        UriStep(x, n);
        DoneSuffix(x, n + 2);
        DoneIsFixed(p, x[n + 2..]);
        assert x[..1] == [':'] && x[n + 1..][..1] == ['@'] && x[n + 1..][1..] == x[n + 2..];
        Parts(x, 1, n + 1);
        Parts(x[n + 1..], 1, 1);
      }
    }
  }

  // ---------------------------------------------------------------- exactly which tokens leak

  /** The pattern takes nothing of the token away: what it matches is the marker, or its beginning at the end. */
  ghost predicate Stable(t: string) {
    && UriDone(t)
    && forall i: nat, n: nat :: DsnAt(t, i, n) ==>
         t[i + 9..i + 9 + n] == MARK || (i + 9 + n == |t| && t[i + 9..] <= MARK)
  }

  lemma PartOfDoneIsStable(x: string, t: string, j: nat)
    requires DsnDone(x) && UriDone(x) && OccursAt(x, t, j)
    ensures Stable(t)
  {
    assert forall k :: 0 <= k < |t| ==> t[k] == x[j..j + |t|][k] == x[j + k];
    forall i: nat, n: nat | UriAt(t, i, n) ensures t[i + 1..i + 1 + n] == MARK {
      assert UriAt(x, j + i, n);
      assert t[i + 1..i + 1 + n] == x[j + i + 1..j + i + 1 + n];
    }
    forall i: nat, n: nat | DsnAt(t, i, n)
      ensures t[i + 9..i + 9 + n] == MARK || (i + 9 + n == |t| && t[i + 9..] <= MARK)
    {
      PartOfRun(x, t, j, i, n);
    }
  }

  lemma PartOfRun(x: string, t: string, j: nat, i: nat, n: nat)
    requires DsnDone(x) && j + |t| <= |x| && forall k :: 0 <= k < |t| ==> t[k] == x[j + k]
    requires DsnAt(t, i, n)
    ensures t[i + 9..i + 9 + n] == MARK || (i + 9 + n == |t| && t[i + 9..] <= MARK)
  {
    var at := j + i + 9;
    assert KeyAt(x, j + i);
    assert x[at] == t[i + 9] && DsnChar(x[at]);
    var m := RunFrom(x, j + i);
    assert x[at..at + m] == MARK;
    forall k | at <= k < at + n ensures DsnChar(x[k]) {
      assert t[k - j] == x[j + (k - j)];
    }
    assert m >= n;
    assert t[i + 9..i + 9 + n] == x[at..at + n] == x[at..at + m][..n];
  }

  /** The token ends in a run of the first pattern that is not yet the whole marker. */
  predicate Unfinished(t: string, i: nat) {
    i + 9 < |t| && DsnAt(t, i, |t| - i - 9) && t[i + 9..] != MARK
  }

  /** Stable text that does not end in an unfinished run is done. */
  lemma FinishedIsDone(t: string)
    requires Stable(t) && forall i: nat :: !Unfinished(t, i)
    ensures DsnDone(t)
  {
    forall i: nat, n: nat | DsnAt(t, i, n) ensures t[i + 9..i + 9 + n] == MARK {
      assert !Unfinished(t, i);
      assert i + 9 + n == |t| ==> t[i + 9..] == t[i + 9..i + 9 + n];
    }
  }

  lemma KeyChar(x: string, i: nat, k: nat)
    requires k < 9
    ensures KeyAt(x, i) ==> i + k < |x| && FoldsTo(x[i + k], "password="[k])
  {
  }

  lemma MarkIsDone()
    ensures DsnDone(MARK) && UriDone(MARK)
  {
    forall i: nat, n: nat ensures !DsnAt(MARK, i, n) && !UriAt(MARK, i, n) {
      if i < |MARK| {
        MarkStartsNothing(i);
      }
      KeyChar(MARK, i, 0);
    }
  }

  lemma MarkThenAt(b: string, i: nat, n: nat)
    ensures DsnAt(MARK + b, i, n) ==> i >= |MARK| && DsnAt(b, i - |MARK|, n)
    ensures UriAt(MARK + b, i, n) ==> i >= |MARK| && UriAt(b, i - |MARK|, n)
  {
    hide KeyAt, FoldsTo;
    NotInMark(b, i);
    KeyChar(MARK + b, i, 0);
    if i >= |MARK| {
      assert (MARK + b)[|MARK|..] == b;
      AtSuffix(MARK + b, |MARK|, i - |MARK|, n);
    }
  }

  /** The marker before a text starts nothing. */
  lemma MarkThenDone(b: string)
    requires DsnDone(b) && UriDone(b)
    ensures DsnDone(MARK + b) && UriDone(MARK + b)
  {
    var x := MARK + b;
    forall i: nat, n: nat | DsnAt(x, i, n) ensures x[i + 9..i + 9 + n] == MARK {
      MarkThenAt(b, i, n);
      hide KeyAt;
      assert x[i + 9..i + 9 + n] == b[i - |MARK| + 9..i - |MARK| + 9 + n];
    }
    forall i: nat, n: nat | UriAt(x, i, n) ensures x[i + 1..i + 1 + n] == MARK {
      MarkThenAt(b, i, n);
      assert x[i + 1..i + 1 + n] == b[i - |MARK| + 1..i - |MARK| + 1 + n];
    }
  }

  lemma NotInMark(b: string, i: nat)
    ensures i < |MARK| ==> !FoldsTo((MARK + b)[i], 'p') && (MARK + b)[i] != ':'
  {
    if i < |MARK| {
      MarkStartsNothing(i);
    }
  }

  /** A key in a text followed by the marker lies in the text. */
  lemma KeyBeforeMark(a: string, i: nat)
    ensures KeyAt(a + MARK, i) ==> KeyAt(a, i)
  {
    var x := a + MARK;
    assert forall k :: 0 <= k < |a| ==> x[k] == a[k];
    assert x[|a|] == '[' && x[|x| - 1] == ']';
    if i <= |a| < i + 9 {
      KeyChar(x, i, |a| - i);
    }
    KeyChar(x, i, 8);
  }

  /**
    Text that ends in the beginning of the marker, completed: if the patterns take nothing of it
    away, and no run but the one at the marker is unfinished, they take nothing of the whole away.
   */
  lemma ThenMarkDone(a: string, m: string)
    requires 0 < |m| && m <= MARK && Stable(a + m)
    requires forall i: nat :: Unfinished(a + m, i) ==> i + 9 == |a|
    ensures DsnDone(a + MARK) && UriDone(a + MARK)
  {
    forall i: nat, n: nat | DsnAt(a + MARK, i, n) ensures (a + MARK)[i + 9..i + 9 + n] == MARK {
      DsnThenMark(a, m, i, n);
    }
    forall i: nat, n: nat | UriAt(a + MARK, i, n) ensures (a + MARK)[i + 1..i + 1 + n] == MARK {
      UriThenMark(a, m, i, n);
    }
  }

  lemma UriThenMark(a: string, m: string, i: nat, n: nat)
    requires UriDone(a + m) && UriAt(a + MARK, i, n)
    ensures (a + MARK)[i + 1..i + 1 + n] == MARK
  {
    var x, t := a + MARK, a + m;
    assert forall k :: 0 <= k < |a| ==> x[k] == a[k] == t[k];
    if i >= |a| {
      MarkStartsNothing(i - |a|);
    }
    if i + 1 + n >= |a| {
      MarkStartsNothing(i + 1 + n - |a|);
    }
    assert UriAt(t, i, n);
    assert x[i + 1..i + 1 + n] == t[i + 1..i + 1 + n];
  }

  lemma DsnThenMark(a: string, m: string, i: nat, n: nat)
    requires 0 < |m| && m <= MARK && Stable(a + m) && DsnAt(a + MARK, i, n)
    requires forall j: nat :: Unfinished(a + m, j) ==> j + 9 == |a|
    ensures (a + MARK)[i + 9..i + 9 + n] == MARK
  {
    var x, t := a + MARK, a + m;
    KeyBeforeMark(a, i);
    assert forall k :: 0 <= k < |a| ==> x[k] == a[k] == t[k];
    assert forall k :: |a| <= k < |t| ==> t[k] == m[k - |a|] == MARK[k - |a|] == x[k];
    if i + 9 == |a| {
      forall k | 0 <= k < 10 ensures DsnChar(MARK[k]) {
        MarkStartsNothing(k);
      }
      assert forall k :: |a| <= k < |x| ==> DsnChar(x[k]);
      assert x[i + 9..i + 9 + n] == MARK;
    } else {
      RunInside(a, m, i, n);
    }
  }

  lemma FinishedRun(t: string, i: nat)
    requires Stable(t) && !Unfinished(t, i) && KeyAt(t, i) && i + 9 < |t| && DsnChar(t[i + 9])
    ensures i + 19 <= |t| && (i + 19 < |t| ==> !DsnChar(t[i + 19]))
    ensures forall k :: i + 9 <= k < i + 19 ==> t[k] == MARK[k - i - 9]
  {
    hide KeyAt, DsnChar, UriDone;
    var r := RunFrom(t, i);
    assert i + 9 + r == |t| ==> t[i + 9..] == t[i + 9..i + 9 + r];
    var run := t[i + 9..i + 9 + r];
    assert run == MARK;
    assert forall k :: i + 9 <= k < i + 9 + r ==> t[k] == run[k - i - 9];
  }

  /** A run that starts before the marker ends before it, being the marker itself. */
  lemma RunInside(a: string, m: string, i: nat, n: nat)
    requires 0 < |m| && m <= MARK && Stable(a + m) && DsnAt(a + MARK, i, n) && KeyAt(a, i) && i + 9 < |a|
    requires forall j: nat :: Unfinished(a + m, j) ==> j + 9 == |a|
    ensures (a + MARK)[i + 9..i + 9 + n] == MARK
  {
    hide Stable, Unfinished;
    var x, t := a + MARK, a + m;
    assert forall k :: 0 <= k < |a| ==> x[k] == a[k] == t[k];
    assert t[|a|] == m[0] == '[' == x[|a|];
    assert KeyAt(t, i);
    FinishedRun(t, i);
    assert forall k :: 0 < k < 10 ==> MARK[k] != '[';
    assert DsnChar('[');
    assert i + 19 < |a|;
    assert n == 10;
    assert x[i + 9..i + 19] == MARK;
  }

  // ---------------------------------------------------------------- the leak

  /** The text around a marker that completes the token keeps it, for some way of laying the token over the marker. */
  lemma StableOverlap(t: string) returns (offset: int)
    requires t != "" && !Clear(t) && Stable(t)
    ensures -|t| < offset < |MARK| && !Clashes(t, offset)
    ensures DsnDone(Around(t, offset)) && UriDone(Around(t, offset))
  {
    if i: nat :| Unfinished(t, i) {
      offset := -(i + 9);
      UnfinishedOverlaps(t, i);
    } else {
      offset := Overlap(t);
      FinishedIsDone(t);
      FinishedOverlaps(t, offset);
    }
  }

  lemma UnfinishedOverlaps(t: string, i: nat)
    requires Stable(t) && Unfinished(t, i)
    ensures -|t| < -(i + 9) && !Clashes(t, -(i + 9))
    ensures DsnDone(Around(t, -(i + 9))) && UriDone(Around(t, -(i + 9)))
  {
    var a, m := t[..i + 9], t[i + 9..];
    assert t == a + m && t[i + 9..i + 9 + (|t| - i - 9)] == m;
    assert m <= MARK;
    assert forall k :: i + 9 <= k < |t| ==> t[k] == m[k - i - 9] == MARK[k - i - 9];
    forall j: nat | Unfinished(a + m, j) ensures j + 9 == |a| {
      OneUnfinished(t, i, j);
    }
    ThenMarkDone(a, m);
    assert Around(t, -(i + 9)) == a + MARK;
  }

  /** The run at the end holds no key, so there is only one. */
  lemma OneUnfinished(t: string, i: nat, j: nat)
    requires Stable(t) && Unfinished(t, i) && Unfinished(t, j)
    ensures i == j
  {
    hide Stable, Unfinished;
    NoneUnfinishedBehind(t, i, j);
    NoneUnfinishedBehind(t, j, i);
  }

  lemma NoneUnfinishedBehind(t: string, i: nat, j: nat)
    requires Stable(t) && Unfinished(t, i)
    ensures i < j ==> !Unfinished(t, j)
  {
    assert t[i + 9..i + 9 + (|t| - i - 9)] == t[i + 9..];
    var run := t[i + 9..];
    assert run <= MARK;
    if i < j && j + 8 < |t| {
      assert t[j + 8] == run[j - i - 1] == MARK[j - i - 1];
      MarkStartsNothing(j - i - 1);
    }
    hide Stable;
    KeyChar(t, j, 8);
  }

  /** Without an unfinished run any overlap will do. */
  lemma FinishedOverlaps(t: string, offset: int)
    requires -|t| < offset < |MARK| && !Clashes(t, offset)
    requires Stable(t) && DsnDone(t) && forall i: nat :: !Unfinished(t, i)
    ensures DsnDone(Around(t, offset)) && UriDone(Around(t, offset))
  {
    var a, b := Before(t, offset), After(t, offset);
    if a != "" && b != "" {
      FullOverlap(t, offset);
    } else if b != "" {
      assert b == t[|MARK| - offset..];
      DoneSuffix(t, |MARK| - offset);
      MarkThenDone(b);
      assert "" + MARK + b == MARK + b;
    } else if a != "" {
      var m := t[-offset..];
      assert forall k :: 0 <= k < |m| ==> m[k] == t[k - offset] == MARK[k];
      assert m == MARK[..|m|];
      assert a + m == t;
      ThenMarkDone(a, m);
      assert a + MARK + "" == a + MARK;
    } else {
      MarkIsDone();
      assert "" + MARK + "" == MARK;
    }
  }

  lemma FullOverlap(t: string, offset: int)
    requires -|t| < offset < |MARK| && !Clashes(t, offset)
    requires Before(t, offset) != "" && After(t, offset) != ""
    ensures Around(t, offset) == t
  {
    var a, b := Before(t, offset), After(t, offset);
    assert forall k :: 0 <= k < |MARK| ==> t[k - offset] == MARK[k];
    assert t[-offset..|MARK| - offset] == MARK;
  }

  /**
    The sanitizer is safe for a token exactly if the token clashes with the marker wherever the two
    overlap, or a pattern takes some of it away.
   */
  lemma SanitizerIsSafeIff(t: string)
    requires t != "" && TrimSpace(t) == t
    ensures NeverLeaks(t) <==> Clear(t) || !Stable(t)
  {
    hide Redact, RedactTokens, TrimSpace, Clear, Stable, DsnDone, UriDone, Around, OccursAt;
    if Clear(t) {
      forall msg, sensitive, i | 0 <= i < |sensitive| && TrimSpace(sensitive[i]) == t
        ensures !Occurs(SanitizedPart(msg, sensitive), t)
      {
        TokensAreRedacted(msg, sensitive, i);
      }
    } else if !Stable(t) {
      forall msg, sensitive ensures !Occurs(SanitizedPart(msg, sensitive), t) {
        SanitizedIsDone(msg, sensitive);
        UnstableIsAbsent(SanitizedPart(msg, sensitive), t);
      }
    } else {
      var offset := StableOverlap(t);
      LeakAt(t, offset);
    }
  }

  lemma UnstableIsAbsent(x: string, t: string)
    requires DsnDone(x) && UriDone(x) && !Stable(t)
    ensures !Occurs(x, t)
  {
    hide Stable, DsnDone, UriDone, OccursAt;
    if Occurs(x, t) {
      var j: nat :| OccursAt(x, t, j);
      PartOfDoneIsStable(x, t, j);
    }
  }

  lemma LeakAt(t: string, offset: int)
    requires t != "" && TrimSpace(t) == t && -|t| < offset < |MARK| && !Clashes(t, offset)
    requires DsnDone(Around(t, offset)) && UriDone(Around(t, offset))
    ensures !NeverLeaks(t)
  {
    hide Redact, RedactTokens, TrimSpace, Occurs, DsnDone, UriDone, Before, After;
    Completed(t, offset);
    var msg, u := MarkerAppears(t, Before(t, offset), After(t, offset));
    var x := Around(t, offset);
    DoneIsFixed(DsnPassword, x);
    DoneIsFixed(UriPassword, x);
    var sensitive := [t, u];
    assert TrimSpace(sensitive[0]) == t;
    assert Occurs(SanitizedPart(msg, sensitive), t);
  }

  /** A token that neither pattern matches in stays out of the part behind the prefix exactly if it is clear. */
  lemma UnmatchedIsSafeIff(t: string)
    requires t != "" && TrimSpace(t) == t
    requires forall i: nat, n: nat :: !DsnAt(t, i, n) && !UriAt(t, i, n)
    ensures NeverLeaks(t) <==> Clear(t)
  {
    hide NeverLeaks, Clear;
    SanitizerIsSafeIff(t);
  }

  // ---------------------------------------------------------------- the whole error

  /** The text of the returned error. */
  function ErrorText(msg: string, sensitive: seq<string>): string {
    FAILURE_PREFIX + SanitizedPart(msg, sensitive)
  }

  /** The token does not occur in the returned error, whatever the message and the other tokens. */
  ghost predicate NeverShown(t: string) {
    forall msg, sensitive, i :: 0 <= i < |sensitive| && TrimSpace(sensitive[i]) == t ==>
      !Occurs(ErrorText(msg, sensitive), t)
  }

  /** The first k characters end the prefix, and what is left can begin a sanitized text. */
  ghost predicate Straddles(prefix: string, t: string, k: nat) {
    0 < k < |t| && k <= |prefix| && t[..k] == prefix[|prefix| - k..] && Stable(t[k..])
  }

  /** A token found in two joined texts is in one of them or lies across the joint. */
  lemma OccursInJoined(prefix: string, x: string, t: string)
    ensures Occurs(prefix + x, t) <==>
      || Occurs(prefix, t) || Occurs(x, t)
      || exists k: nat :: 0 < k < |t| && k <= |prefix| && t[..k] == prefix[|prefix| - k..] && t[k..] <= x
  {
    hide Occurs;
    if Occurs(prefix + x, t) {
      var j := Position(prefix + x, t);
      JoinedParts(prefix, x, t, j);
    }
    if Occurs(prefix, t) {
      var j := Position(prefix, t);
      OccursLeft(prefix, x, t, j);
      Found(prefix + x, t, j);
    }
    if Occurs(x, t) {
      var j := Position(x, t);
      OccursRight(prefix, x, t, j);
      Found(prefix + x, t, |prefix| + j);
    }
    if k: nat :| 0 < k < |t| && k <= |prefix| && t[..k] == prefix[|prefix| - k..] && t[k..] <= x {
      AcrossJoint(prefix, x, t, k);
    }
  }

  lemma AcrossJoint(prefix: string, x: string, t: string, k: nat)
    requires 0 < k < |t| && k <= |prefix| && t[..k] == prefix[|prefix| - k..] && t[k..] <= x
    ensures Occurs(prefix + x, t)
  {
    var j := |prefix| - k;
    var all := prefix + x;
    assert forall m :: 0 <= m < k ==> all[j + m] == prefix[j..][m] == t[..k][m] == t[m];
    assert forall m :: k <= m < |t| ==> all[j + m] == x[m - k] == t[k..][m - k] == t[m];
    assert all[j..j + |t|] == t;
    Found(all, t, j);
  }

  lemma Position(x: string, t: string) returns (j: nat)
    requires Occurs(x, t)
    ensures OccursAt(x, t, j)
  {
    j :| OccursAt(x, t, j);
  }

  lemma Found(x: string, t: string, j: nat)
    requires OccursAt(x, t, j)
    ensures Occurs(x, t)
  {
  }

  lemma JoinedParts(prefix: string, x: string, t: string, j: nat)
    requires OccursAt(prefix + x, t, j)
    ensures || Occurs(prefix, t) || Occurs(x, t)
      || exists k: nat :: 0 < k < |t| && k <= |prefix| && t[..k] == prefix[|prefix| - k..] && t[k..] <= x
  {
    if j + |t| <= |prefix| {
      OccursLeft(prefix, x, t, j);
      Found(prefix, t, j);
    } else if j >= |prefix| {
      OccursRight(prefix, x, t, j - |prefix|);
      Found(x, t, j - |prefix|);
    } else {
      var k := |prefix| - j;
      assert t == (prefix + x)[j..j + |t|];
      assert t[..k] == prefix[j..] && t[k..] == x[..|t| - k];
    }
  }

  /**
    A short stable text begins a sanitized text in which the token is among the sensitive ones:
    as it is, or with its unfinished run made the whole marker.
   */
  lemma StableBegins(t: string, q: string) returns (msg: string, u: string)
    requires t != "" && TrimSpace(t) == t && |q| < |t| && Stable(q)
    ensures q <= SanitizedPart(msg, [t, u])
  {
    hide Redact, RedactTokens, TrimSpace, Stable, Unfinished;
    if i: nat :| Unfinished(q, i) {
      u, msg := UnfinishedBegins(t, q, i);
    } else {
      msg, u := q, t;
      ShortIsKept(q, t);
      FinishedStaysDone(q);
      DoneIsFixed(DsnPassword, q);
      DoneIsFixed(UriPassword, q);
      TwoTokens(q, t, t);
    }
  }

  lemma FinishedStaysDone(q: string)
    requires Stable(q) && forall i: nat :: !Unfinished(q, i)
    ensures DsnDone(q) && UriDone(q)
  {
    FinishedIsDone(q);
  }

  /** A token longer than the text is not in it, nor is its escaped form. */
  lemma ShortIsKept(q: string, t: string)
    requires t != "" && TrimSpace(t) == t && |q| < |t|
    ensures RedactToken(q, t) == q
  {
    hide Redact, TrimSpace, QueryEscape;
    EscapeIsNoShorter(t);
    AbsentTokenDoesNothing(q, t);
  }

  lemma UnfinishedBegins(t: string, q: string, i: nat) returns (u: string, msg: string)
    requires t != "" && TrimSpace(t) == t && |q| < |t| && Stable(q) && Unfinished(q, i)
    ensures q <= SanitizedPart(msg, [t, u])
  {
    hide Redact, RedactTokens, TrimSpace, Clashes, KeyAt;
    var offset := -(i + 9);
    UnfinishedOverlaps(q, i);
    var a := q[..i + 9];
    assert Around(q, offset) == a + MARK by {
      assert Before(q, offset) == a && After(q, offset) == "";
      assert a + MARK + "" == a + MARK;
    }
    msg, u := MarkerAppears(t, a, "");
    assert a + MARK + "" == a + MARK;
    DoneIsFixed(DsnPassword, a + MARK);
    DoneIsFixed(UriPassword, a + MARK);
    UnfinishedRun(q, i);
    assert q == a + q[i + 9..];
  }

  lemma UnfinishedRun(q: string, i: nat)
    requires Stable(q) && Unfinished(q, i)
    ensures q[i + 9..] <= MARK
  {
    assert q[i + 9..i + 9 + (|q| - i - 9)] == q[i + 9..];
  }

  /**
    The whole error is safe for a token exactly if the part behind the prefix is, the token is not
    in the prefix, and it does not lie across the two: no end of the prefix begins it whose rest
    could begin a sanitized text.
   */
  lemma ErrorIsSafeIff(t: string)
    requires t != "" && TrimSpace(t) == t
    ensures NeverShown(t) <==>
      && (Clear(t) || !Stable(t))
      && !Occurs(FAILURE_PREFIX, t)
      && forall k: nat :: !Straddles(FAILURE_PREFIX, t, k)
  {
    hide NeverShown, NeverLeaks, Clear, Stable, Straddles, FAILURE_PREFIX, Occurs, TrimSpace;
    SanitizerIsSafeIff(t);
    if !NeverLeaks(t) {
      LeaksAreShown(t);
    } else if Occurs(FAILURE_PREFIX, t) {
      PrefixIsShown(t);
    } else if k: nat :| Straddles(FAILURE_PREFIX, t, k) {
      StraddlingIsShown(t, k);
    } else {
      OthersAreNotShown(t);
    }
  }

  lemma LeaksAreShown(t: string)
    requires !NeverLeaks(t)
    ensures !NeverShown(t)
  {
    hide SanitizedPart, FAILURE_PREFIX, Occurs, TrimSpace;
    var msg, sensitive, i :| 0 <= i < |sensitive| && TrimSpace(sensitive[i]) == t && Occurs(SanitizedPart(msg, sensitive), t);
    OccursInJoined(FAILURE_PREFIX, SanitizedPart(msg, sensitive), t);
    assert Occurs(ErrorText(msg, sensitive), t);
  }

  lemma PrefixIsShown(t: string)
    requires TrimSpace(t) == t && Occurs(FAILURE_PREFIX, t)
    ensures !NeverShown(t)
  {
    hide SanitizedPart, FAILURE_PREFIX, Occurs, TrimSpace;
    var sensitive := [t];
    OccursInJoined(FAILURE_PREFIX, SanitizedPart("", sensitive), t);
    assert TrimSpace(sensitive[0]) == t && Occurs(ErrorText("", sensitive), t);
  }

  lemma StraddlingIsShown(t: string, k: nat)
    requires t != "" && TrimSpace(t) == t && Straddles(FAILURE_PREFIX, t, k)
    ensures !NeverShown(t)
  {
    hide SanitizedPart, FAILURE_PREFIX, Occurs, TrimSpace, Stable;
    var msg, u := StableBegins(t, t[k..]);
    var sensitive := [t, u];
    OccursInJoined(FAILURE_PREFIX, SanitizedPart(msg, sensitive), t);
    assert TrimSpace(sensitive[0]) == t && Occurs(ErrorText(msg, sensitive), t);
  }

  lemma OthersAreNotShown(t: string)
    requires NeverLeaks(t) && !Occurs(FAILURE_PREFIX, t) && forall k: nat :: !Straddles(FAILURE_PREFIX, t, k)
    ensures NeverShown(t)
  {
    hide SanitizedPart, FAILURE_PREFIX, Occurs, TrimSpace, Stable, DsnDone, UriDone;
    forall msg, sensitive, i | 0 <= i < |sensitive| && TrimSpace(sensitive[i]) == t
      ensures !Occurs(ErrorText(msg, sensitive), t)
    {
      var x := SanitizedPart(msg, sensitive);
      OccursInJoined(FAILURE_PREFIX, x, t);
      SanitizedIsDone(msg, sensitive);
      if k: nat :| 0 < k < |t| && k <= |FAILURE_PREFIX| && t[..k] == FAILURE_PREFIX[|FAILURE_PREFIX| - k..] && t[k..] <= x {
        BeginningStraddles(FAILURE_PREFIX, x, t, k);
      }
    }
  }

  lemma BeginningStraddles(prefix: string, x: string, t: string, k: nat)
    requires DsnDone(x) && UriDone(x)
    requires 0 < k < |t| && k <= |prefix| && t[..k] == prefix[|prefix| - k..] && t[k..] <= x
    ensures Straddles(prefix, t, k)
  {
    hide Stable, DsnDone, UriDone;
    assert x[0..0 + |t[k..]|] == t[k..];
    PartOfDoneIsStable(x, t[k..], 0);
  }

  /** Tokens that the sanitizer itself is safe for, and that every error or some error shows all the same. */
  lemma PrefixShowsSafeTokens()
    ensures NeverLeaks("base") && !NeverShown("base")
    ensures NeverLeaks("d: x") && !NeverShown("d: x")
  {
    ForeignIsClear("base");
    ForeignIsClear("d: x");
    PlainTokens();
    SanitizerIsSafeIff("base");
    SanitizerIsSafeIff("d: x");
    ErrorIsSafeIff("base");
    ErrorIsSafeIff("d: x");
  }

  lemma PlainTokens()
    ensures TrimSpace("base") == "base" && TrimSpace("d: x") == "d: x"
    ensures Occurs(FAILURE_PREFIX, "base") && Straddles(FAILURE_PREFIX, "d: x", 3)
  {
    hide Stable;
    PrefixShowsBase();
    assert "d: x"[3..] == "x" && "d: x"[..3] == "d: ";
    assert FAILURE_PREFIX[|FAILURE_PREFIX| - 3..] == "d: ";
    XIsStable();
  }

  lemma PrefixShowsBase()
    ensures Occurs(FAILURE_PREFIX, "base")
  {
    var f := FAILURE_PREFIX;
    var b := f[4..8];
    assert f[4] == 'b' && f[5] == 'a' && f[6] == 's' && f[7] == 'e';
    assert b == [f[4], f[5], f[6], f[7]];
    assert OccursAt(FAILURE_PREFIX, "base", 4);
  }

  lemma XIsStable()
    ensures Stable("x")
  {
  }
}
