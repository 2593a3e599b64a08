/**
  Names of the objects the operator creates: revision secrets and probe Jobs.
 */
module Naming {

  // ---------------------------------------------------------------- revision secrets

  predicate IsHex(c: char) {
    '0' <= c <= '9' || 'a' <= c <= 'f'
  }

  /** A revision hash: the first twelve characters of a lower-case hexadecimal digest. */
  predicate IsRevision(s: string) {
    |s| == 12 && forall i :: 0 <= i < |s| ==> IsHex(s[i])
  }

  type Revision = s: string | IsRevision(s) witness "000000000000"

  predicate HasPrefix(s: string, prefix: string) {
    prefix <= s
  }

  predicate HasSuffix(s: string, suffix: string) {
    |suffix| <= |s| && s[|s| - |suffix|..] == suffix
  }

  /** What every revision secret of one target and object starts with. */
  function RevisionPrefix(target: string, objectName: string): string {
    target + "-" + objectName + "-rev-"
  }

  function SecretName(target: string, objectName: string, revision: string): string {
    RevisionPrefix(target, objectName) + revision
  }

  /** Two revision secrets share a name only if they share the target-object string and the revision. */
  lemma SecretNameInjective(t1: string, o1: string, r1: string, t2: string, o2: string, r2: string)
    requires |r1| == |r2|
    ensures SecretName(t1, o1, r1) == SecretName(t2, o2, r2) <==> t1 + "-" + o1 == t2 + "-" + o2 && r1 == r2
  {
    var p1, p2 := RevisionPrefix(t1, o1), RevisionPrefix(t2, o2);
    var n1, n2 := p1 + r1, p2 + r2;
    assert p1 == (t1 + "-" + o1) + "-rev-" && p2 == (t2 + "-" + o2) + "-rev-";
    if n1 == n2 {
      assert n1[..|p1|] == p1 && n2[..|p2|] == p2;
      assert n1[|p1|..] == r1 && n2[|p2|..] == r2;
      assert p1[..|p1| - 5] == t1 + "-" + o1 && p2[..|p2| - 5] == t2 + "-" + o2;
    }
  }

  // ---------------------------------------------------------------- probe Jobs

  /**
    Go's unicode.ToLower, as far as the sanitizer can tell: two runes outside ASCII have an
    ASCII lower case, and every other one stays outside [a-z0-9] whatever it maps to.
   */
  function LowerRune(c: char): char {
    if 'A' <= c <= 'Z' then (c as int + 32) as char
    else if c == '\U{0130}' then 'i'
    else if c == '\U{212A}' then 'k'
    else c
  }

  predicate AlphaNum(c: char) {
    'a' <= c <= 'z' || '0' <= c <= '9'
  }

  function DashRune(c: char): char {
    var r := LowerRune(c);
    if AlphaNum(r) then r else '-'
  }

  function Dashed(s: string): string {
    seq(|s|, i requires 0 <= i < |s| => DashRune(s[i]))
  }

  function TrimLeft(s: string): string {
    if s != "" && s[0] == '-' then TrimLeft(s[1..]) else s
  }

  function TrimRight(s: string): string {
    if s != "" && s[|s| - 1] == '-' then TrimRight(s[..|s| - 1]) else s
  }

  /** strings.TrimPrefix(s, "-") and strings.TrimSuffix(s, "-"): one hyphen at most. */
  function TrimOneLeft(s: string): string {
    if s != "" && s[0] == '-' then s[1..] else s
  }

  function TrimOneRight(s: string): string {
    if s != "" && s[|s| - 1] == '-' then s[..|s| - 1] else s
  }

  function SanitizeName(s: string): string {
    TrimRight(TrimLeft(Dashed(s)))
  }

  const JOB_PREFIX := "dso-probe-"

  /** The last 24 characters of a sanitized secret name, less one leading hyphen. */
  function JobSuffix(secretName: string): string {
    var rev := SanitizeName(secretName);
    if |rev| > 24 then TrimOneLeft(rev[|rev| - 24..]) else rev
  }

  function JobMiddle(policyName: string, room: nat): string {
    var policy := SanitizeName(policyName);
    if |policy| > room then TrimOneRight(policy[..room]) else policy
  }

  /** The Job name without the final cut at 63 characters, which DeriveProbeJobName shows to be idle. */
  function JobName(policyName: string, secretName: string): string {
    var suffix := JobSuffix(secretName);
    TrimRight(JOB_PREFIX + JobMiddle(policyName, 63 - |JOB_PREFIX| - 1 - |suffix|) + "-" + suffix)
  }

  method SanitizeNameLoop(s: string) returns (name: string)
    ensures name == SanitizeName(s)
  {
    var b := "";
    for i := 0 to |s|
      invariant b == Dashed(s)[..i]
    {
      var r := LowerRune(s[i]);
      b := b + [if AlphaNum(r) then r else '-'];
    }
    assert b == Dashed(s);
    name := TrimRight(TrimLeft(b));
  }

  method DeriveProbeJobName(policyName: string, revisionSecretName: string) returns (jobName: string)
    ensures jobName == JobName(policyName, revisionSecretName)
  {
    hide SanitizeName, TrimRight;
    var sanitizedPolicy := SanitizeNameLoop(policyName);
    var sanitizedRev := SanitizeNameLoop(revisionSecretName);
    if |sanitizedRev| > 24 {
      sanitizedRev := sanitizedRev[|sanitizedRev| - 24..];
      sanitizedRev := TrimOneLeft(sanitizedRev);
    }
    var maxPolicyLen := 63 - |JOB_PREFIX| - 1 - |sanitizedRev|;
    if maxPolicyLen > 0 && |sanitizedPolicy| > maxPolicyLen {
      sanitizedPolicy := TrimOneRight(sanitizedPolicy[..maxPolicyLen]);
    }
    jobName := JOB_PREFIX + sanitizedPolicy + "-" + sanitizedRev;
    assert |jobName| <= 63 && jobName[..|jobName|] == jobName;
    jobName := jobName[..if |jobName| > 63 then 63 else |jobName|];
    jobName := TrimRight(jobName);
  }

  /** A label under section 2.1 of RFC 1123, in the lower-case form Kubernetes asks for. */
  predicate IsLabel(s: string) {
    && 1 <= |s| <= 63
    && LabelChars(s)
    && AlphaNum(s[0]) && AlphaNum(s[|s| - 1])
  }

  predicate LabelChars(s: string) {
    forall i :: 0 <= i < |s| ==> AlphaNum(s[i]) || s[i] == '-'
  }

  lemma TrimRightShape(s: string)
    ensures TrimRight(s) <= s
    ensures TrimRight(s) != "" ==> TrimRight(s)[|TrimRight(s)| - 1] != '-'
    ensures forall k :: 0 <= k < |s| && s[k] != '-' ==> k < |TrimRight(s)|
  {
  }

  lemma TrimLeftShape(s: string)
    ensures HasSuffix(s, TrimLeft(s))
    ensures TrimLeft(s) != "" ==> TrimLeft(s)[0] != '-'
    ensures LabelChars(s) ==> LabelChars(TrimLeft(s))
  {
  }

  lemma SanitizedShape(s: string)
    ensures LabelChars(SanitizeName(s))
    ensures var n := SanitizeName(s); n != "" ==> AlphaNum(n[0]) && AlphaNum(n[|n| - 1])
  {
    TrimLeftShape(Dashed(s));
    TrimRightShape(TrimLeft(Dashed(s)));
  }

  lemma JobPartsShape(policyName: string, secretName: string, room: nat)
    ensures |JobSuffix(secretName)| <= 24 && LabelChars(JobSuffix(secretName))
    ensures |JobMiddle(policyName, room)| <= room && LabelChars(JobMiddle(policyName, room))
  {
    SanitizedShape(policyName);
    SanitizedShape(secretName);
  }

  lemma LabelCharsConcat(a: string, b: string)
    ensures LabelChars(a + b) <==> LabelChars(a) && LabelChars(b)
  {
    if LabelChars(a + b) {
      assert forall i :: 0 <= i < |a| ==> a[i] == (a + b)[i];
      assert forall i :: 0 <= i < |b| ==> b[i] == (a + b)[|a| + i];
    }
  }

  lemma TrimmedIsLabel(s: string)
    requires 1 <= |s| <= 63 && LabelChars(s) && AlphaNum(s[0])
    ensures IsLabel(TrimRight(s))
  {
    TrimRightShape(s);
    var name := TrimRight(s);
    assert forall i :: 0 <= i < |name| ==> name[i] == s[i];
  }

  /** For every policy and secret name, the Job name is a label. */
  lemma JobNameIsLabel(policyName: string, secretName: string)
    ensures IsLabel(JobName(policyName, secretName))
  {
    var suffix := JobSuffix(secretName);
    JobPartsShape(policyName, secretName, 0);
    var room: nat := 52 - |suffix|;
    JobPartsShape(policyName, secretName, room);
    var middle := JobMiddle(policyName, room);
    LabelCharsConcat(JOB_PREFIX, middle);
    LabelCharsConcat(JOB_PREFIX + middle, "-");
    LabelCharsConcat(JOB_PREFIX + middle + "-", suffix);
    TrimmedIsLabel(JOB_PREFIX + middle + "-" + suffix);
  }

  lemma TrimLeftKeepsSuffix(s: string, tail: string)
    requires HasSuffix(s, tail) && tail != "" && AlphaNum(tail[0])
    ensures HasSuffix(TrimLeft(s), tail)
  {
    if s[0] == '-' {
      assert |s| > |tail|;
      assert s[1..][|s| - 1 - |tail|..] == s[|s| - |tail|..];
      TrimLeftKeepsSuffix(s[1..], tail);
    }
  }

  /** Twelve hexadecimal characters at the end of a name survive sanitizing. */
  lemma SanitizedKeepsRevision(s: string, revision: Revision)
    requires HasSuffix(s, revision)
    ensures HasSuffix(SanitizeName(s), revision)
  {
    var d := Dashed(s);
    forall i | 0 <= i < 12 ensures d[|d| - 12..][i] == revision[i] {
      assert IsHex(revision[i]) && s[|s| - 12..][i] == revision[i];
    }
    assert d[|d| - 12..] == revision;
    assert IsHex(revision[0]) && IsHex(revision[11]);
    TrimLeftKeepsSuffix(d, revision);
    var l := TrimLeft(d);
    assert l[|l| - 1] == l[|l| - 12..][11];
  }

  /** The cut to 24 characters keeps a revision at the end. */
  lemma JobSuffixKeepsRevision(secretName: string, revision: Revision)
    requires HasSuffix(secretName, revision)
    ensures HasSuffix(JobSuffix(secretName), revision)
  {
    hide SanitizeName;
    SanitizedKeepsRevision(secretName, revision);
    var rev, suffix := SanitizeName(secretName), JobSuffix(secretName);
    if |rev| > 24 {
      var cut := rev[|rev| - 24..];
      assert cut[12..] == rev[|rev| - 12..];
      assert |suffix| >= 12 && suffix[|suffix| - 12..] == cut[12..];
    }
  }

  lemma JobNameKeepsRevision(policyName: string, secretName: string, revision: Revision)
    requires HasSuffix(secretName, revision)
    ensures HasSuffix(JobName(policyName, secretName), revision)
  {
    hide SanitizeName, JobSuffix, JobMiddle;
    JobSuffixKeepsRevision(secretName, revision);
    JobPartsShape(policyName, secretName, 0);
    var suffix := JobSuffix(secretName);
    var middle := JOB_PREFIX + JobMiddle(policyName, 63 - |JOB_PREFIX| - 1 - |suffix|) + "-";
    var full := middle + suffix;
    assert full[|full| - |suffix|..] == suffix;
    assert full[|full| - 12..] == suffix[|suffix| - 12..];
    assert IsHex(revision[11]) && full[|full| - 1] == full[|full| - 12..][11];
  }

  /** For one policy, secrets of different revisions get different Jobs. */
  lemma JobNameSeparatesRevisions(policyName: string, s1: string, r1: Revision, s2: string, r2: Revision)
    requires HasSuffix(s1, r1) && HasSuffix(s2, r2)
    ensures r1 != r2 ==> JobName(policyName, s1) != JobName(policyName, s2)
  {
    JobNameKeepsRevision(policyName, s1, r1);
    JobNameKeepsRevision(policyName, s2, r2);
  }

  // ---------------------------------------------------------------- which name it is

  /** A character of a sanitized name: small letters and digits stay, capitals become small, all else is a hyphen. */
  function NameChar(c: char): char {
    if 'a' <= c <= 'z' || '0' <= c <= '9' then c
    else if 'A' <= c <= 'Z' then ('a' as int + (c as int - 'A' as int)) as char
    else if c == '\U{0130}' then 'i'
    else if c == '\U{212A}' then 'k'
    else '-'
  }

  /** The name is the part from i to j, character by character; what is cut off on both sides is hyphens. */
  predicate SanitizedFrom(s: string, name: string, i: nat, j: nat) {
    && i <= j <= |s| && |name| == j - i
    && (forall k :: 0 <= k < |name| ==> name[k] == NameChar(s[i + k]))
    && (forall k :: 0 <= k < |s| && !(i <= k < j) ==> NameChar(s[k]) == '-')
    && (name != "" ==> name[0] != '-' && name[|name| - 1] != '-')
  }

  lemma NameCharIs(c: char)
    ensures DashRune(c) == NameChar(c)
  {
  }

  lemma TrimmedRight(s: string)
    ensures TrimRight(s) <= s && forall k :: |TrimRight(s)| <= k < |s| ==> s[k] == '-'
  {
  }

  lemma TrimmedLeft(s: string)
    ensures HasSuffix(s, TrimLeft(s)) && forall k :: 0 <= k < |s| - |TrimLeft(s)| ==> s[k] == '-'
  {
  }

  lemma DashedIs(s: string)
    ensures |Dashed(s)| == |s| && forall k :: 0 <= k < |s| ==> Dashed(s)[k] == NameChar(s[k])
  {
    hide NameChar, DashRune;
    forall k | 0 <= k < |s| ensures Dashed(s)[k] == NameChar(s[k]) {
      NameCharIs(s[k]);
    }
  }

  /** Trimming on both sides leaves a part between hyphens, with none at its ends. */
  lemma TrimmedPart(d: string) returns (i: nat, j: nat)
    ensures i <= j <= |d| && TrimRight(TrimLeft(d)) == d[i..j]
    ensures forall k :: 0 <= k < i || j <= k < |d| ==> d[k] == '-'
    ensures i < j ==> d[i] != '-' && d[j - 1] != '-'
  {
    hide TrimLeft, TrimRight;
    TrimLeftShape(d);
    TrimmedLeft(d);
    var l := TrimLeft(d);
    TrimRightShape(l);
    TrimmedRight(l);
    i := |d| - |l|;
    j := i + |TrimRight(l)|;
    assert l == d[i..];
    assert TrimRight(l) == l[..j - i] == d[i..j];
    assert forall k :: i <= k < |d| ==> d[k] == l[k - i];
  }

  /** A sanitized name is what is left of the lower-cased text, with hyphens for all else, between the hyphens at its ends. */
  lemma SanitizedIs(s: string) returns (i: nat, j: nat)
    ensures SanitizedFrom(s, SanitizeName(s), i, j)
  {
    hide NameChar, Dashed, TrimLeft, TrimRight;
    DashedIs(s);
    i, j := TrimmedPart(Dashed(s));
  }

  /** A name in which nothing needs changing: small letters, digits and hyphens, with no hyphen at its ends. */
  predicate IsClean(s: string) {
    LabelChars(s) && s != "" && AlphaNum(s[0]) && AlphaNum(s[|s| - 1])
  }

  lemma CleanStays(s: string)
    requires IsClean(s)
    ensures SanitizeName(s) == s
  {
    assert Dashed(s) == s by {
      assert forall k :: 0 <= k < |s| ==> DashRune(s[k]) == s[k];
    }
  }

  /** The last 24 characters, or 23 if they begin with a hyphen. */
  function Tail(s: string): string {
    if |s| <= 24 then s else if s[|s| - 24] == '-' then s[|s| - 23..] else s[|s| - 24..]
  }

  /** As many characters as there is room for, less a hyphen at the cut. */
  function Head(s: string, room: nat): string {
    if |s| <= room then s else if room > 0 && s[room - 1] == '-' then s[..room - 1] else s[..room]
  }

  lemma EndsClean(s: string)
    requires s != "" && s[|s| - 1] != '-'
    ensures TrimRight(s) == s
  {
  }

  /** For clean names the Job is named after the policy and the end of the secret's name, within 63 characters. */
  lemma JobNameIs(policyName: string, secretName: string)
    requires IsClean(policyName) && IsClean(secretName)
    ensures JobName(policyName, secretName) ==
      "dso-probe-" + Head(policyName, 52 - |Tail(secretName)|) + "-" + Tail(secretName)
  {
    hide SanitizeName, TrimRight;
    CleanStays(policyName);
    CleanStays(secretName);
    var tail := Tail(secretName);
    assert JobSuffix(secretName) == tail;
    assert JobMiddle(policyName, 52 - |tail|) == Head(policyName, 52 - |tail|);
    var full := JOB_PREFIX + Head(policyName, 52 - |tail|) + "-" + tail;
    assert tail[|tail| - 1] == secretName[|secretName| - 1] && full[|full| - 1] == tail[|tail| - 1];
    EndsClean(full);
  }

  /** Policies with clean names of at most 28 characters never share a Job name for one secret. */
  lemma JobNameSeparatesPolicies(p1: string, p2: string, secretName: string)
    requires IsClean(p1) && IsClean(p2) && |p1| <= 28 && |p2| <= 28 && IsClean(secretName)
    ensures JobName(p1, secretName) == JobName(p2, secretName) <==> p1 == p2
  {
    hide JobName, Tail, IsClean;
    TailIsShort(secretName);
    JobNameIs(p1, secretName);
    JobNameIs(p2, secretName);
    var start, end := "dso-probe-", "-" + Tail(secretName);
    Framed(start, p1, Tail(secretName));
    Framed(start, p2, Tail(secretName));
  }

  lemma TailIsShort(s: string)
    ensures |Tail(s)| <= 24
  {
  }

  lemma Framed(start: string, middle: string, tail: string)
    ensures var all := start + middle + "-" + tail;
      |all| == |start| + |middle| + 1 + |tail| && all[|start|..|all| - 1 - |tail|] == middle
  {
  }
}
