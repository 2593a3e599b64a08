/**
  The differences Argo CD is told to ignore: the entry the operator adds to an Application, and
  the conflict-retry loop that writes it while users edit the same Application.
 */
module IgnoreDifferences {
  import opened Options
  import opened Naming

  datatype Item = Item(group: string, kind: string, jsonPointers: seq<string>, jqPathExpressions: seq<string>,
      others: string)

  const REVISION_POINTER := "/spec/template/metadata/annotations/dso.quantumsys.dev~1revision"

  function VolumeExpression(app: string): string {
    ".spec.template.spec.volumes[]" + @" | select(.secret.secretName | startswith(""" + app + @"-""))"
  }

  function EnvExpression(app: string): string {
    ".spec.template.spec.containers[].env[]?" + @" | select(.valueFrom.secretKeyRef.name | startswith(""" + app + @"-""))"
  }

  /** What an entry has to hold. */
  datatype Needs = Needs(pointer: string, volumes: string, env: string)

  function Required(app: string): (need: Needs)
    ensures need.volumes != need.env
  {
    assert |VolumeExpression(app)| < |EnvExpression(app)|;
    Needs(REVISION_POINTER, VolumeExpression(app), EnvExpression(app))
  }

  // ---------------------------------------------------------------- what an update should do

  predicate Addresses(item: Item, group: string, kind: string) {
    (item.group == group || (item.group == "" && group == "apps")) && item.kind == kind
  }

  /** The required strings that are not there yet, in order. */
  function Missing(existing: seq<string>, required: seq<string>): seq<string> {
    if |required| == 0 then []
    else (if required[0] in existing then [] else [required[0]]) + Missing(existing, required[1..])
  }

  function Completed(need: Needs, item: Item): Item {
    item.(jsonPointers := item.jsonPointers + Missing(item.jsonPointers, [need.pointer]),
          jqPathExpressions := item.jqPathExpressions + Missing(item.jqPathExpressions, [need.volumes, need.env]))
  }

  function NewItem(need: Needs, group: string, kind: string): Item {
    Item(group, kind, [need.pointer], [need.volumes, need.env], "")
  }

  function Ensured(need: Needs, group: string, kind: string, items: seq<Item>): seq<Item> {
    if |items| == 0 then [NewItem(need, group, kind)]
    else if Addresses(items[0], group, kind) then [Completed(need, items[0])] + items[1..]
    else [items[0]] + Ensured(need, group, kind, items[1..])
  }

  /** The entry an update is about: the first that addresses the workload, or one past the end. */
  function FirstMatch(group: string, kind: string, items: seq<Item>): (k: nat)
    ensures k <= |items| && (k < |items| ==> Addresses(items[k], group, kind))
    ensures forall j :: 0 <= j < k ==> !Addresses(items[j], group, kind)
  {
    if |items| == 0 || Addresses(items[0], group, kind) then 0 else 1 + FirstMatch(group, kind, items[1..])
  }

  predicate Complete(need: Needs, item: Item) {
    && need.pointer in item.jsonPointers
    && need.volumes in item.jqPathExpressions
    && need.env in item.jqPathExpressions
  }

  /** The first entry that addresses the workload holds all that is required. */
  predicate Satisfied(need: Needs, group: string, kind: string, items: seq<Item>) {
    var k := FirstMatch(group, kind, items);
    k < |items| && Complete(need, items[k])
  }

  // ---------------------------------------------------------------- the code

  class Application {
    const name: string
    var ignoreDifferences: seq<Item>

    constructor (name: string, items: seq<Item>)
      ensures this.name == name && ignoreDifferences == items
    {
      this.name, ignoreDifferences := name, items;
    }

    /** Adds what the entry at index i lacks. */
    method CompleteItem(i: nat) returns (modified: bool)
      requires i < |ignoreDifferences|
      modifies this`ignoreDifferences
      ensures ignoreDifferences == old(ignoreDifferences)[i := Completed(Required(name), old(ignoreDifferences[i]))]
      ensures modified == !Complete(Required(name), old(ignoreDifferences[i]))
    {
      hide Required;
      var need := Required(name);
      var existing := ignoreDifferences[i].jqPathExpressions;
      var existingPointers := ignoreDifferences[i].jsonPointers;
      var required := [need.volumes, need.env];
      modified := false;
      ghost var pointed := ignoreDifferences[i].(jsonPointers := existingPointers + Missing(existingPointers, [need.pointer]));
      MissingOfOne(existingPointers, need.pointer);
      if need.pointer !in existingPointers {
        ignoreDifferences := ignoreDifferences[i :=
          ignoreDifferences[i].(jsonPointers := ignoreDifferences[i].jsonPointers + [need.pointer])];
        modified := true;
      }
      assert existingPointers + [] == existingPointers && existing + Missing(existing, required[..0]) == existing;
      for n := 0 to |required|
        invariant ExpressionsAdded(old(ignoreDifferences), i, pointed, existing + Missing(existing, required[..n]))
        invariant modified <==> need.pointer !in existingPointers || exists k :: 0 <= k < n && required[k] !in existing
      {
        MissingNext(existing, required, n);
        if required[n] !in existing {
          assert existing + (Missing(existing, required[..n]) + [required[n]])
              == existing + Missing(existing, required[..n]) + [required[n]];
          ignoreDifferences := ignoreDifferences[i :=
            ignoreDifferences[i].(jqPathExpressions := ignoreDifferences[i].jqPathExpressions + [required[n]])];
          modified := true;
        } else {
          assert Missing(existing, required[..n]) + [] == Missing(existing, required[..n]);
        }
      }
      assert required[..|required|] == required;
      assert required[0] == need.volumes && required[1] == need.env;
    }

    ghost predicate ExpressionsAdded(before: seq<Item>, i: nat, item: Item, expressions: seq<string>)
      reads this
    {
      i < |before| && ignoreDifferences == before[i := item.(jqPathExpressions := expressions)]
    }

    method EnsureIgnoreDifferences(group: string, kind: string) returns (modified: bool)
      modifies this`ignoreDifferences
      ensures ignoreDifferences == Ensured(Required(name), group, kind, old(ignoreDifferences))
      ensures modified == !Satisfied(Required(name), group, kind, old(ignoreDifferences))
    {
      EnsuredAtFirstMatch(Required(name), group, kind, ignoreDifferences);
      for i := 0 to |ignoreDifferences|
        invariant ignoreDifferences == old(ignoreDifferences)
        invariant i <= FirstMatch(group, kind, ignoreDifferences)
      {
        if Addresses(ignoreDifferences[i], group, kind) {
          modified := CompleteItem(i);
          return;
        }
      }
      ignoreDifferences := ignoreDifferences + [NewItem(Required(name), group, kind)];
      return true;
    }
  }

  lemma MissingNext(existing: seq<string>, required: seq<string>, n: nat)
    requires n < |required|
    ensures Missing(existing, required[..n + 1]) ==
            Missing(existing, required[..n]) + (if required[n] in existing then [] else [required[n]])
  {
    MissingConcat(existing, required[..n], [required[n]]);
    assert required[..n] + [required[n]] == required[..n + 1] && [required[n]][1..] == [];
  }

  lemma MissingConcat(existing: seq<string>, a: seq<string>, b: seq<string>)
    ensures Missing(existing, a + b) == Missing(existing, a) + Missing(existing, b)
  {
    if |a| == 0 {
      assert a + b == b;
    } else {
      assert (a + b)[1..] == a[1..] + b;
      MissingConcat(existing, a[1..], b);
    }
  }

  lemma MissingOfOne(existing: seq<string>, x: string)
    ensures Missing(existing, [x]) == if x in existing then [] else [x]
  {
    assert [x][1..] == [];
  }

  // ---------------------------------------------------------------- what an update keeps

  /** Everything of an entry is still in its place; pointers and expressions may have been appended. */
  predicate KeepsItem(before: Item, after: Item) {
    && after.group == before.group && after.kind == before.kind && after.others == before.others
    && before.jsonPointers <= after.jsonPointers && before.jqPathExpressions <= after.jqPathExpressions
  }

  predicate KeepsItems(before: seq<Item>, after: seq<Item>) {
    |before| <= |after| && forall i :: 0 <= i < |before| ==> KeepsItem(before[i], after[i])
  }

  /** The strings added are the required ones that were missing, once each. */
  ghost predicate AddsOnce(before: seq<string>, after: seq<string>, required: set<string>) {
    && before <= after
    && forall x :: x in after[|before|..] || x in required ==>
         multiset(after[|before|..])[x] == if x in required && x !in before then 1 else 0
  }

  lemma UpdateTail<T>(s: seq<T>, k: nat, x: T)
    requires k + 1 < |s|
    ensures s[1..][k] == s[k + 1] && [s[0]] + s[1..][k := x] == s[k + 1 := x]
  {
  }

  lemma AppendTail<T>(s: seq<T>, x: T)
    requires |s| > 0
    ensures [s[0]] + (s[1..] + [x]) == s + [x]
  {
  }

  /** The update with the first match already found. */
  function EnsuredAt(need: Needs, group: string, kind: string, items: seq<Item>, k: nat): seq<Item>
    requires k <= |items|
  {
    if k < |items| then items[k := Completed(need, items[k])] else items + [NewItem(need, group, kind)]
  }

  /** Only the first entry that addresses the workload changes; if there is none, one is appended. */
  lemma {:induction false} EnsuredAtFirstMatch(need: Needs, group: string, kind: string, items: seq<Item>)
    ensures Ensured(need, group, kind, items) == EnsuredAt(need, group, kind, items, FirstMatch(group, kind, items))
  {
    if |items| > 0 {
      if Addresses(items[0], group, kind) {
        assert items[0 := Completed(need, items[0])] == [Completed(need, items[0])] + items[1..];
      } else {
        EnsuredAtFirstMatch(need, group, kind, items[1..]);
        var k := FirstMatch(group, kind, items[1..]);
        if k < |items| - 1 {
          UpdateTail(items, k, Completed(need, items[k + 1]));
        } else {
          AppendTail(items, NewItem(need, group, kind));
        }
      }
    }
  }

  lemma AddsOneOnce(before: seq<string>, x: string)
    ensures var after := before + Missing(before, [x]);
      && AddsOnce(before, after, {x})
      && x in after
      && (after == before <==> x in before)
  {
    var more := if x in before then [] else [x];
    assert [x][1..] == [];
    assert Missing(before, [x]) == more;
    assert (before + more)[|before|..] == more;
    assert x !in before ==> (before + more)[|before|] == x;
  }

  lemma AppendedOnce(before: seq<string>, more: seq<string>, required: set<string>)
    requires forall z :: z in more || z in required ==> multiset(more)[z] == if z in required && z !in before then 1 else 0
    ensures AddsOnce(before, before + more, required)
    ensures (forall z :: z in more ==> z in before + more) && (before + more == before <==> more == [])
  {
    assert (before + more)[|before|..] == more;
    forall z | z in more ensures z in before + more {
      var k :| 0 <= k < |more| && more[k] == z;
      assert (before + more)[|before| + k] == z;
    }
  }

  lemma AddsTwoOnce(before: seq<string>, x: string, y: string)
    requires x != y
    ensures var after := before + Missing(before, [x, y]);
      && AddsOnce(before, after, {x, y})
      && x in after && y in after
      && (after == before <==> x in before && y in before)
  {
    hide AddsOnce;
    MissingOfTwo(before, x, y);
    AppendedOnce(before, Missing(before, [x, y]), {x, y});
  }

  lemma MissingOfTwo(before: seq<string>, x: string, y: string)
    ensures Missing(before, [x, y]) ==
      if x in before then if y in before then [] else [y] else if y in before then [x] else [x, y]
  {
    MissingConcat(before, [x], [y]);
    MissingOfOne(before, x);
    MissingOfOne(before, y);
    assert [x] + [y] == [x, y];
  }

  lemma CompletedIsComplete(need: Needs, item: Item)
    requires need.volumes != need.env
    ensures Complete(need, Completed(need, item)) && KeepsItem(item, Completed(need, item))
    ensures Completed(need, item) == item <==> Complete(need, item)
    ensures AddsOnce(item.jsonPointers, Completed(need, item).jsonPointers, {need.pointer})
    ensures AddsOnce(item.jqPathExpressions, Completed(need, item).jqPathExpressions, {need.volumes, need.env})
    ensures !Complete(need, item) && need.volumes !in item.jqPathExpressions && need.env !in item.jqPathExpressions ==>
      Completed(need, item).jqPathExpressions == item.jqPathExpressions + [need.volumes, need.env]
  {
    MissingOfTwo(item.jqPathExpressions, need.volumes, need.env);
    AddsOneOnce(item.jsonPointers, need.pointer);
    AddsTwoOnce(item.jqPathExpressions, need.volumes, need.env);
  }

  lemma SameFirstMatch(group: string, kind: string, before: seq<Item>, after: seq<Item>)
    requires var k := FirstMatch(group, kind, before);
      k < |after| && after[..k] == before[..k] && Addresses(after[k], group, kind)
    ensures FirstMatch(group, kind, after) == FirstMatch(group, kind, before)
  {
    hide Addresses;
    var k := FirstMatch(group, kind, before);
    assert forall j :: 0 <= j < k ==> after[..k][j] == before[j];
    assert forall j :: 0 <= j < k ==> after[j] == after[..k][j];
  }

  lemma EnsuredAtKeeps(need: Needs, group: string, kind: string, items: seq<Item>, k: nat)
    requires need.volumes != need.env
    requires k <= |items| && (k < |items| ==> Addresses(items[k], group, kind))
    ensures var after := EnsuredAt(need, group, kind, items, k);
      && k < |after| && after[..k] == items[..k]
      && Addresses(after[k], group, kind) && Complete(need, after[k])
      && KeepsItems(items, after)
      && (after == items <==> k < |items| && Complete(need, items[k]))
  {
    if k < |items| {
      CompletedIsComplete(need, items[k]);
      assert items[k := Completed(need, items[k])][k] == Completed(need, items[k]);
    }
  }

  /**
    For every Application: the update changes it exactly if something required is missing, leaves
    the required items in the first matching entry, keeps every entry, pointer and expression in
    order, and a second update changes nothing.
   */
  lemma EnsuredIsEnough(need: Needs, group: string, kind: string, items: seq<Item>)
    requires need.volumes != need.env
    ensures var after := Ensured(need, group, kind, items);
      && Satisfied(need, group, kind, after)
      && FirstMatch(group, kind, after) == FirstMatch(group, kind, items)
      && KeepsItems(items, after)
      && (after != items <==> !Satisfied(need, group, kind, items))
      && Ensured(need, group, kind, after) == after
  {
    var k := FirstMatch(group, kind, items);
    var after := EnsuredAt(need, group, kind, items, k);
    EnsuredAtFirstMatch(need, group, kind, items);
    EnsuredAtKeeps(need, group, kind, items, k);
    SameFirstMatch(group, kind, items, after);
    EnsuredAtFirstMatch(need, group, kind, after);
    EnsuredAtKeeps(need, group, kind, after, k);
  }

  // ---------------------------------------------------------------- what the entry covers

  const VOLUME_TEXT := ".spec.template.spec.volumes[]" + " | select(.secret.secretName | startswith(\""
  const ENV_TEXT := ".spec.template.spec.containers[].env[]?" + " | select(.valueFrom.secretKeyRef.name | startswith(\""

  /** Read as a selection by the start of a name, behind the given text, the expression selects that name. */
  ghost predicate SelectsName(expression: string, text: string, name: string) {
    exists prefix :: expression == text + prefix + "\"))" && prefix <= name
  }

  /** Some expression of the entry selects volumes of that secret, and some one variables from it. */
  ghost predicate Ignored(item: Item, secretName: string) {
    && (exists x :: x in item.jqPathExpressions && SelectsName(x, VOLUME_TEXT, secretName))
    && (exists x :: x in item.jqPathExpressions && SelectsName(x, ENV_TEXT, secretName))
  }

  lemma QuotedPrefix(text: string, p1: string, p2: string)
    ensures text + p1 + "\"))" == text + p2 + "\"))" ==> p1 == p2
  {
    var s1, s2 := text + p1 + "\"))", text + p2 + "\"))";
    assert s1[|text|..|s1| - 3] == p1 && s2[|text|..|s2| - 3] == p2;
  }

  lemma QuotedSelects(text: string, app: string, name: string)
    ensures SelectsName(text + (app + "-") + "\"))", text, name) <==> app + "-" <= name
  {
    if prefix :| text + (app + "-") + "\"))" == text + prefix + "\"))" && prefix <= name {
      QuotedPrefix(text, app + "-", prefix);
    }
  }

  lemma QuotedText(text: string, app: string)
    ensures text + app + "-\"))" == text + (app + "-") + "\"))"
  {
    assert "-" + "\"))" == "-\"))";
  }

  lemma NeededSelect(app: string, name: string)
    ensures SelectsName(Required(app).volumes, VOLUME_TEXT, name) <==> app + "-" <= name
    ensures SelectsName(Required(app).env, ENV_TEXT, name) <==> app + "-" <= name
  {
    hide SelectsName;
    QuotedText(VOLUME_TEXT, app);
    QuotedText(ENV_TEXT, app);
    QuotedSelects(VOLUME_TEXT, app, name);
    QuotedSelects(ENV_TEXT, app, name);
  }

  /** An expression about variables is none about volumes. */
  lemma ListsDiffer(app: string, name: string)
    ensures !SelectsName(Required(app).env, VOLUME_TEXT, name) && !SelectsName(Required(app).volumes, ENV_TEXT, name)
  {
    var volume, variable := VOLUME_TEXT, ENV_TEXT;
    assert ".spec.template.spec.volumes[]"[20] == 'v' && ".spec.template.spec.containers[].env[]?"[20] == 'c';
    assert VolumeExpression(app) == volume + app + "-\"))" && EnvExpression(app) == variable + app + "-\"))";
    StartsApart(volume, variable, Required(app).env, name);
    StartsApart(variable, volume, Required(app).volumes, name);
  }

  lemma StartsApart(text: string, other: string, expression: string, name: string)
    requires |text| > 20 && |other| > 20 && text[20] != other[20] && other <= expression
    ensures !SelectsName(expression, text, name)
  {
    assert expression[20] == other[20];
    forall prefix ensures expression != text + prefix + "\"))" {
      assert (text + prefix + "\"))")[20] == text[20];
    }
  }

  /** The operator's own entry selects exactly the names that start with the Application's name and a hyphen. */
  lemma IgnoredIff(app: string, group: string, kind: string, name: string)
    ensures Ignored(NewItem(Required(app), group, kind), name) <==> app + "-" <= name
  {
    hide Required, SelectsName;
    var item := NewItem(Required(app), group, kind);
    NeededSelect(app, name);
    ListsDiffer(app, name);
    assert Required(app).volumes in item.jqPathExpressions && Required(app).env in item.jqPathExpressions;
  }

  lemma CompleteIgnores(app: string, item: Item, name: string)
    requires Complete(Required(app), item) && app + "-" <= name
    ensures Ignored(item, name)
  {
    hide Required, SelectsName;
    NeededSelect(app, name);
  }

  lemma PrefixOfRevision(start: string, target: string, objectName: string, r: Revision)
    requires start != "" && start[|start| - 1] == '-'
    ensures start <= SecretName(target, objectName, r) <==> start <= RevisionPrefix(target, objectName)
  {
    var prefix, name := RevisionPrefix(target, objectName), SecretName(target, objectName, r);
    assert name[..|prefix|] == prefix;
    assert forall k :: |prefix| <= k < |name| ==> name[k] == r[k - |prefix|] && IsHex(name[k]);
    if start <= name {
      assert name[|start| - 1] == '-';
      assert |start| <= |prefix|;
      assert prefix[..|start|] == name[..|start|];
    }
    if start <= prefix {
      assert name[..|start|] == prefix[..|start|];
    }
  }

  /**
    Read as the text it is, the entry that the operator adds hides its own change of a secret name
    from Argo CD exactly if the common prefix of the revision secrets starts with the Application's
    name and a hyphen; a completed entry of the user's hides it at least then; which revision is
    mounted never matters.
   */
  lemma RevisionIsIgnoredIff(app: string, target: string, objectName: string, r: Revision, group: string, kind: string,
                             item: Item)
    ensures Ignored(NewItem(Required(app), group, kind), SecretName(target, objectName, r))
       <==> app + "-" <= RevisionPrefix(target, objectName)
    ensures Complete(Required(app), item) && app + "-" <= RevisionPrefix(target, objectName) ==>
      Ignored(item, SecretName(target, objectName, r))
  {
    hide Required, SecretName, RevisionPrefix, Ignored, Complete;
    var name := SecretName(target, objectName, r);
    assert (app + "-")[|app|] == '-';
    PrefixOfRevision(app + "-", target, objectName, r);
    IgnoredIff(app, group, kind, name);
    if Complete(Required(app), item) && app + "-" <= name {
      CompleteIgnores(app, item, name);
    }
  }

  // ---------------------------------------------------------------- which entry

  /** The entry is for that group and kind; for the group apps an entry without a group counts too. */
  predicate EntryFor(item: Item, group: string, kind: string) {
    item.kind == kind && item.group in (if group == "apps" then {"apps", ""} else {group})
  }

  /**
    The update touches the first entry for the workload and no other: it keeps what the entry says
    and adds what is required; without such an entry it appends one that holds just that.
   */
  lemma OnlyTheEntryChanges(app: string, group: string, kind: string, items: seq<Item>, k: nat)
    requires k <= |items| && forall j :: 0 <= j < k ==> !EntryFor(items[j], group, kind)
    ensures var after := Ensured(Required(app), group, kind, items);
      && (k < |items| && EntryFor(items[k], group, kind) ==>
            |after| == |items| && after == items[k := after[k]] && KeepsItem(items[k], after[k])
            && Complete(Required(app), after[k]))
      && (k == |items| ==> after == items + [Item(group, kind, [Required(app).pointer],
            [Required(app).volumes, Required(app).env], "")])
      && Required(app).pointer == "/spec/template/metadata/annotations/dso.quantumsys.dev~1revision"
  {
    hide Required, Complete, KeepsItem;
    var need := Required(app);
    assert forall item :: Addresses(item, group, kind) <==> EntryFor(item, group, kind);
    EnsuredAtFirstMatch(need, group, kind, items);
    if k < |items| && EntryFor(items[k], group, kind) {
      assert FirstMatch(group, kind, items) == k;
      CompletedIsComplete(need, items[k]);
    } else if k == |items| {
      assert FirstMatch(group, kind, items) == k;
    }
    PointerNeeded(app);
  }

  lemma PointerNeeded(app: string)
    ensures Required(app).pointer == "/spec/template/metadata/annotations/dso.quantumsys.dev~1revision"
  {
  }

  // ---------------------------------------------------------------- the conflict-retry loop

  datatype Writer = User | Operator

  /** A stored version: who wrote it, the ignored differences, and the rest of the Application. */
  datatype Version = Version(writer: Writer, items: seq<Item>, rest: string)

  datatype Edit = Edit(items: seq<Item>, rest: string)

  /** What the API server says to a write, besides a conflict. */
  datatype WriteAnswer = Admitted | Gone | Denied

  /**
    One attempt: the edits of users before the read and between read and write, whether the
    Application is found, and what a write is answered.
   */
  datatype Attempt = Attempt(before: seq<Edit>, found: bool, between: seq<Edit>, write: WriteAnswer)

  datatype Outcome = NotFound | AlreadyThere | Updated | Refused | Conflicted

  /** The steps of retry.DefaultRetry. */
  const DEFAULT_RETRY_STEPS := 5

  function AttemptAt(attempts: seq<Attempt>, n: nat): Attempt {
    if n < |attempts| then attempts[n] else Attempt([], true, [], Admitted)
  }

  function Written(e: Edit): Version {
    Version(User, e.items, e.rest)
  }

  function Edited(versions: seq<Version>, edits: seq<Edit>): (r: seq<Version>)
    ensures |r| == |versions| + |edits|
  {
    versions + seq(|edits|, i requires 0 <= i < |edits| => Written(edits[i]))
  }

  /** The loop from its n-th attempt: the versions stored at the end, and how it ended. */
  function Retry(need: Needs, group: string, kind: string, versions: seq<Version>, attempts: seq<Attempt>,
                 n: nat): (seq<Version>, Outcome)
    requires |versions| > 0
    decreases DEFAULT_RETRY_STEPS - n
  {
    if n >= DEFAULT_RETRY_STEPS then (versions, Conflicted)
    else
      var a := AttemptAt(attempts, n);
      var seen := Edited(versions, a.before);
      var latest := seen[|seen| - 1];
      if !a.found then (seen, NotFound)
      else if Satisfied(need, group, kind, latest.items) then (seen, AlreadyThere)
      else
        var stored := Edited(seen, a.between);
        if a.write.Gone? then (stored, NotFound)
        else if a.write.Denied? then (stored, Refused)
        else if |a.between| > 0 then Retry(need, group, kind, stored, attempts, n + 1)
        else (stored + [Version(Operator, Ensured(need, group, kind, latest.items), latest.rest)], Updated)
  }

  /** The API server's copy of one Application; its resource version is the number of the last version. */
  class Store {
    const name: string
    var versions: seq<Version>

    constructor (name: string, items: seq<Item>, rest: string)
      ensures this.name == name && versions == [Version(User, items, rest)]
    {
      this.name, versions := name, [Version(User, items, rest)];
    }

    method UserEdits(edits: seq<Edit>)
      modifies this`versions
      ensures versions == Edited(old(versions), edits)
    {
      for i := 0 to |edits|
        invariant versions == Edited(old(versions), edits[..i])
      {
        versions := versions + [Written(edits[i])];
      }
      assert edits[..|edits|] == edits;
    }

    /** An update carries the resource version it was read at, and is refused if that is stale. */
    method Update(resourceVersion: nat, items: seq<Item>, rest: string) returns (conflict: bool)
      modifies this`versions
      ensures conflict == (resourceVersion != |old(versions)|)
      ensures versions == if conflict then old(versions) else old(versions) + [Version(Operator, items, rest)]
    {
      conflict := resourceVersion != |versions|;
      if !conflict {
        versions := versions + [Version(Operator, items, rest)];
      }
    }

    /** One attempt: None asks for another one. */
    method TryUpdate(group: string, kind: string, a: Attempt) returns (outcome: Option<Outcome>)
      requires |versions| > 0
      modifies this`versions
      ensures |versions| > 0
      ensures forall attempts: seq<Attempt>, n: nat | n < DEFAULT_RETRY_STEPS && AttemptAt(attempts, n) == a ::
        Retry(Required(name), group, kind, old(versions), attempts, n) ==
        match outcome
        case Some(o) => (versions, o)
        case None => Retry(Required(name), group, kind, versions, attempts, n + 1)
    {
      hide Required, Edited, Satisfied, Ensured, AttemptAt;
      UserEdits(a.before);
      if !a.found {
        return Some(NotFound);
      }
      var latest, resourceVersion := versions[|versions| - 1], |versions|;
      var app := new Application(name, latest.items);
      var modified := app.EnsureIgnoreDifferences(group, kind);
      if !modified {
        return Some(AlreadyThere);
      }
      UserEdits(a.between);
      if a.write.Gone? {
        return Some(NotFound);
      }
      if a.write.Denied? {
        return Some(Refused);
      }
      var conflict := Update(resourceVersion, app.ignoreDifferences, latest.rest);
      return if conflict then None else Some(Updated);
    }

    /** An Application that is absent or goes away is no error; a lasting conflict and a refused write are. */
    method ReconcileIgnoreDifferences(kind: string, attempts: seq<Attempt>) returns (ok: bool)
      requires |versions| > 0
      modifies this`versions
      ensures var group := if kind == "Rollout" then "argoproj.io" else "apps";
        var (stored, outcome) := Retry(Required(name), group, kind, old(versions), attempts, 0);
        versions == stored && ok == (outcome != Refused && outcome != Conflicted)
    {
      hide Required, Edited, Satisfied, Ensured, AttemptAt;
      var group := "apps";
      if kind == "Rollout" {
        group := "argoproj.io";
      }
      var n := 0;
      while n < DEFAULT_RETRY_STEPS
        invariant n <= DEFAULT_RETRY_STEPS && |versions| > 0
        invariant Retry(Required(name), group, kind, old(versions), attempts, 0)
               == Retry(Required(name), group, kind, versions, attempts, n)
      {
        var outcome := TryUpdate(group, kind, AttemptAt(attempts, n));
        if outcome.Some? {
          return outcome.value != Refused && outcome.value != Conflicted;
        }
        n := n + 1;
      }
      return false;
    }
  }

  // ---------------------------------------------------------------- no edit is lost

  /** The edits users made while the loop ran, in order, up to the attempt that ended it. */
  function EditsDuring(need: Needs, group: string, kind: string, versions: seq<Version>, attempts: seq<Attempt>,
                       n: nat): seq<Edit>
    requires |versions| > 0
    decreases DEFAULT_RETRY_STEPS - n
  {
    if n >= DEFAULT_RETRY_STEPS then []
    else
      var a := AttemptAt(attempts, n);
      var seen := Edited(versions, a.before);
      if !a.found || Satisfied(need, group, kind, seen[|seen| - 1].items) then a.before
      else if !a.write.Admitted? || |a.between| == 0 then a.before + a.between
      else a.before + (a.between + EditsDuring(need, group, kind, Edited(seen, a.between), attempts, n + 1))
  }

  lemma EditedNone(versions: seq<Version>)
    ensures Edited(versions, []) == versions
  {
  }

  lemma EditedTwice(versions: seq<Version>, a: seq<Edit>, b: seq<Edit>)
    ensures Edited(Edited(versions, a), b) == Edited(versions, a + b)
  {
  }

  lemma EditedThrice(versions: seq<Version>, a: seq<Edit>, b: seq<Edit>, c: seq<Edit>)
    ensures Edited(Edited(Edited(versions, a), b), c) == Edited(versions, a + (b + c))
  {
    hide Edited;
    EditedTwice(Edited(versions, a), b, c);
    EditedTwice(versions, a, b + c);
  }

  lemma NoneBetween(a: seq<Edit>, b: seq<Edit>)
    ensures |b| == 0 ==> a + b == a
  {
  }

  /** An attempt that finds the Application and loses the write to a concurrent edit. */
  predicate LosesTheRace(need: Needs, group: string, kind: string, versions: seq<Version>, a: Attempt)
    requires |versions| > 0
  {
    var seen := Edited(versions, a.before);
    a.found && !Satisfied(need, group, kind, seen[|seen| - 1].items) && a.write.Admitted? && |a.between| > 0
  }

  /** The versions are the edited ones, with the operator's update of the last of them behind if it was written. */
  ghost predicate LastWrite(need: Needs, group: string, kind: string, edited: seq<Version>, stored: seq<Version>,
                            outcome: Outcome)
  {
    && |edited| > 0
    && var latest := edited[|edited| - 1];
    && stored == (if outcome == Updated then edited + [Version(Operator, Ensured(need, group, kind, latest.items), latest.rest)]
                  else edited)
    && (outcome == Updated ==> !Satisfied(need, group, kind, latest.items))
    && (outcome == AlreadyThere ==> Satisfied(need, group, kind, latest.items))
  }

  lemma RetryNext(need: Needs, group: string, kind: string, versions: seq<Version>, attempts: seq<Attempt>, n: nat)
    requires |versions| > 0 && n < DEFAULT_RETRY_STEPS && LosesTheRace(need, group, kind, versions, AttemptAt(attempts, n))
    ensures var a := AttemptAt(attempts, n); var stored := Edited(Edited(versions, a.before), a.between);
      && Retry(need, group, kind, versions, attempts, n) == Retry(need, group, kind, stored, attempts, n + 1)
      && EditsDuring(need, group, kind, versions, attempts, n)
         == a.before + (a.between + EditsDuring(need, group, kind, stored, attempts, n + 1))
  {
    hide Edited, Satisfied, Ensured, AttemptAt;
  }

  lemma LastAttempt(need: Needs, group: string, kind: string, versions: seq<Version>, attempts: seq<Attempt>, n: nat)
    requires |versions| > 0
    requires n >= DEFAULT_RETRY_STEPS || !LosesTheRace(need, group, kind, versions, AttemptAt(attempts, n))
    ensures var (stored, outcome) := Retry(need, group, kind, versions, attempts, n);
      LastWrite(need, group, kind, Edited(versions, EditsDuring(need, group, kind, versions, attempts, n)), stored, outcome)
  {
    hide Edited, Satisfied, Ensured, AttemptAt;
    EditedNone(versions);
    if n < DEFAULT_RETRY_STEPS {
      var a := AttemptAt(attempts, n);
      EditedTwice(versions, a.before, a.between);
      NoneBetween(a.before, a.between);
      EditedNone(Edited(versions, a.before));
    }
  }

  lemma {:induction false} EveryEditIsStored(need: Needs, group: string, kind: string, versions: seq<Version>,
                                             attempts: seq<Attempt>, n: nat)
    requires |versions| > 0
    ensures var (stored, outcome) := Retry(need, group, kind, versions, attempts, n);
      LastWrite(need, group, kind, Edited(versions, EditsDuring(need, group, kind, versions, attempts, n)), stored, outcome)
    decreases DEFAULT_RETRY_STEPS - n
  {
    hide LastWrite, Retry, EditsDuring, Edited, LosesTheRace, AttemptAt;
    var a := AttemptAt(attempts, n);
    if n < DEFAULT_RETRY_STEPS && LosesTheRace(need, group, kind, versions, a) {
      var stored := Edited(Edited(versions, a.before), a.between);
      RetryNext(need, group, kind, versions, attempts, n);
      EveryEditIsStored(need, group, kind, stored, attempts, n + 1);
      EditedThrice(versions, a.before, a.between, EditsDuring(need, group, kind, stored, attempts, n + 1));
    } else {
      LastAttempt(need, group, kind, versions, attempts, n);
    }
  }

  /**
    Every edit is stored, in order; the operator writes at most once, last, and what it writes is
    the update of the version just before it, with everything else of that version unchanged.
   */
  lemma NoEditIsLost(need: Needs, group: string, kind: string, versions: seq<Version>, attempts: seq<Attempt>, n: nat)
    requires |versions| > 0
    ensures var edited := Edited(versions, EditsDuring(need, group, kind, versions, attempts, n));
      var latest := edited[|edited| - 1];
      var (stored, outcome) := Retry(need, group, kind, versions, attempts, n);
      && stored == (if outcome == Updated then edited + [Version(Operator, Ensured(need, group, kind, latest.items), latest.rest)]
                    else edited)
      && (outcome == Updated ==> !Satisfied(need, group, kind, latest.items))
      && (outcome == AlreadyThere ==> Satisfied(need, group, kind, latest.items))
  {
    hide Retry, EditsDuring, Satisfied, Ensured, Edited;
    EveryEditIsStored(need, group, kind, versions, attempts, n);
  }

  /** A loop that reports success on a found Application leaves it complete, with the last edit kept. */
  lemma SuccessLeavesItComplete(need: Needs, group: string, kind: string, versions: seq<Version>,
                                attempts: seq<Attempt>)
    requires need.volumes != need.env
    requires |versions| > 0
    ensures var edited := Edited(versions, EditsDuring(need, group, kind, versions, attempts, 0));
      var latest := edited[|edited| - 1];
      var (stored, outcome) := Retry(need, group, kind, versions, attempts, 0);
      outcome == Updated || outcome == AlreadyThere ==>
        && |stored| > 0
        && var last := stored[|stored| - 1];
        && Satisfied(need, group, kind, last.items)
        && KeepsItems(latest.items, last.items) && last.rest == latest.rest
  {
    NoEditIsLost(need, group, kind, versions, attempts, 0);
    var edited := Edited(versions, EditsDuring(need, group, kind, versions, attempts, 0));
    EnsuredIsEnough(need, group, kind, edited[|edited| - 1].items);
  }

  /** All remaining attempts lose the race. */
  predicate AlwaysLoses(need: Needs, group: string, kind: string, versions: seq<Version>, attempts: seq<Attempt>,
                        n: nat)
    requires |versions| > 0
    decreases DEFAULT_RETRY_STEPS - n
  {
    n >= DEFAULT_RETRY_STEPS ||
    var a := AttemptAt(attempts, n);
    && LosesTheRace(need, group, kind, versions, a)
    && AlwaysLoses(need, group, kind, Edited(Edited(versions, a.before), a.between), attempts, n + 1)
  }

  /** The conflict becomes an error only if each of the five attempts lost to an edit of its own. */
  lemma {:induction false} GivesUpIff(need: Needs, group: string, kind: string, versions: seq<Version>,
                                      attempts: seq<Attempt>, n: nat)
    requires |versions| > 0
    ensures Retry(need, group, kind, versions, attempts, n).1 == Conflicted
       <==> AlwaysLoses(need, group, kind, versions, attempts, n)
    ensures Retry(need, group, kind, versions, attempts, n).1 == Conflicted ==>
      |EditsDuring(need, group, kind, versions, attempts, n)| >= DEFAULT_RETRY_STEPS - n
    decreases DEFAULT_RETRY_STEPS - n
  {
    if n < DEFAULT_RETRY_STEPS {
      var a := AttemptAt(attempts, n);
      if LosesTheRace(need, group, kind, versions, a) {
        GivesUpIff(need, group, kind, Edited(Edited(versions, a.before), a.between), attempts, n + 1);
      }
    }
  }

  // ---------------------------------------------------------------- how the loop ends

  /** What is stored before the n-th attempt if all before it lost the race: the edits, and nothing else. */
  function StoredBefore(versions: seq<Version>, attempts: seq<Attempt>, n: nat): (r: seq<Version>)
    requires |versions| > 0
    ensures |r| > 0
  {
    if n == 0 then versions
    else
      var a := AttemptAt(attempts, n - 1);
      Edited(Edited(StoredBefore(versions, attempts, n - 1), a.before), a.between)
  }

  predicate LosesAt(need: Needs, group: string, kind: string, versions: seq<Version>, attempts: seq<Attempt>, n: nat)
    requires |versions| > 0
  {
    LosesTheRace(need, group, kind, StoredBefore(versions, attempts, n), AttemptAt(attempts, n))
  }

  lemma {:induction false} RetryFrom(need: Needs, group: string, kind: string, versions: seq<Version>,
                                     attempts: seq<Attempt>, n: nat)
    requires |versions| > 0 && n <= 5 && forall k :: 0 <= k < n ==> LosesAt(need, group, kind, versions, attempts, k)
    ensures Retry(need, group, kind, versions, attempts, 0)
         == Retry(need, group, kind, StoredBefore(versions, attempts, n), attempts, n)
    decreases n
  {
    hide Satisfied, Ensured, Edited, AttemptAt;
    if n > 0 {
      RetryFrom(need, group, kind, versions, attempts, n - 1);
      assert LosesAt(need, group, kind, versions, attempts, n - 1);
    }
  }

  /**
    How the loop ends: with a conflict exactly if each of five attempts loses to an edit between its
    read and its write; and else as the first attempt that does not lose says: the Application is
    missing or goes away, is complete already, refuses the write, or takes it.
   */
  lemma {:induction false} LoopEndsAs(need: Needs, group: string, kind: string, versions: seq<Version>,
                                      attempts: seq<Attempt>, n: nat)
    requires |versions| > 0 && n <= 5 && forall k :: 0 <= k < n ==> LosesAt(need, group, kind, versions, attempts, k)
    ensures n == 5 ==> Retry(need, group, kind, versions, attempts, 0).1 == Conflicted
    ensures n < 5 && !LosesAt(need, group, kind, versions, attempts, n) ==>
      var a := AttemptAt(attempts, n); var seen := Edited(StoredBefore(versions, attempts, n), a.before);
      Retry(need, group, kind, versions, attempts, 0).1 ==
        if !a.found then NotFound
        else if Satisfied(need, group, kind, seen[|seen| - 1].items) then AlreadyThere
        else match a.write
          case Gone => NotFound
          case Denied => Refused
          case Admitted => Updated
  {
    hide Satisfied, Ensured, Edited, AttemptAt;
    RetryFrom(need, group, kind, versions, attempts, n);
  }
}
